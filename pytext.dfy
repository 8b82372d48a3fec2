/** The pieces of Python's `str` behaviour that the modelled code relies on:
    `str.strip()`, ASCII `str.lower()`, `sep.join(...)`, `str.split(c)`,
    `str(n)` for a natural number and `repr()` of a string and of a list of
    strings. */
module PyText {
  import opened Wrappers

  /** Python's `str.isspace()`: the ASCII whitespace and separator controls
      plus the Unicode space characters. */
  predicate IsSpace(c: char) {
    var n := c as int;
    (9 <= n <= 13) || (0x1c <= n <= 0x20) || n == 0x85 || n == 0xa0 || n == 0x1680
    || (0x2000 <= n <= 0x200a) || n == 0x2028 || n == 0x2029 || n == 0x202f
    || n == 0x205f || n == 0x3000
  }

  /** `s.lstrip()`: the longest suffix of `s` that does not start with whitespace. */
  function TrimStart(s: string): (r: string)
    ensures |r| <= |s| && r == s[|s| - |r|..]
    ensures r == [] || !IsSpace(r[0])
    ensures forall i :: 0 <= i < |s| - |r| ==> IsSpace(s[i])
  {
    if s != [] && IsSpace(s[0]) then TrimStart(s[1..]) else s
  }

  /** `s.rstrip()`: the longest prefix of `s` that does not end with whitespace. */
  function TrimEnd(s: string): (r: string)
    ensures |r| <= |s| && r == s[..|r|]
    ensures r == [] || !IsSpace(r[|r| - 1])
    ensures forall i :: |r| <= i < |s| ==> IsSpace(s[i])
  {
    if s != [] && IsSpace(s[|s| - 1]) then TrimEnd(s[..|s| - 1]) else s
  }

  /** `s.strip()`: the slice of `s` left once the whitespace at both ends is
      removed. */
  function Strip(s: string): (r: string)
    ensures |r| <= |s|
    ensures r == [] || (!IsSpace(r[0]) && !IsSpace(r[|r| - 1]))
    ensures exists i :: StrippedAt(s, r, i)
  {
    var t := TrimStart(s);
    var r := TrimEnd(t);
    var i := |s| - |t|;
    assert r == s[i..i + |r|];
    assert StrippedAt(s, r, i);
    r
  }

  /** `r` is the slice of `s` at `i`, and everything of `s` before and after
      it is whitespace. */
  predicate StrippedAt(s: string, r: string, i: nat) {
    i <= |s| - |r| && r == s[i..i + |r|]
    && (forall k :: 0 <= k < i ==> IsSpace(s[k]))
    && (forall k :: i + |r| <= k < |s| ==> IsSpace(s[k]))
  }

  /** A string that neither starts nor ends with whitespace is its own strip. */
  lemma StripUnchanged(s: string)
    requires s == [] || (!IsSpace(s[0]) && !IsSpace(s[|s| - 1]))
    ensures Strip(s) == s
  {
  }

  lemma StripIdempotent(s: string)
    ensures Strip(Strip(s)) == Strip(s)
  {
    StripUnchanged(Strip(s));
  }

  predicate IsUpperAscii(c: char) {
    'A' <= c <= 'Z'
  }

  /** `c.lower()` restricted to ASCII letters. */
  function LowerAscii(c: char): (r: char)
    ensures !IsUpperAscii(r)
    ensures IsUpperAscii(c) || r == c
    ensures IsUpperAscii(c) ==> 'a' <= r <= 'z' && r as int - c as int == 32
  {
    if IsUpperAscii(c) then (c as int + 32) as char else c
  }

  /** `s.lower()` restricted to ASCII letters. */
  function Lower(s: string): string {
    seq(|s|, i requires 0 <= i < |s| => LowerAscii(s[i]))
  }

  /** `sep.join(parts)`. */
  function Join(parts: seq<string>, sep: string): string
  {
    if |parts| == 0 then ""
    else if |parts| == 1 then parts[0]
    else parts[0] + sep + Join(parts[1..], sep)
  }

  predicate EndsWith(s: string, suffix: string) {
    |suffix| <= |s| && s[|s| - |suffix|..] == suffix
  }

  /** The joined string starts with the first part ... */
  lemma JoinStartsWith(parts: seq<string>, sep: string)
    requires |parts| > 0
    ensures parts[0] <= Join(parts, sep)
  {
  }

  /** ... and ends with the last one. */
  lemma {:induction false} JoinEndsWith(parts: seq<string>, sep: string)
    requires |parts| > 0
    ensures EndsWith(Join(parts, sep), parts[|parts| - 1])
  {
    if |parts| > 1 {
      JoinEndsWith(parts[1..], sep);
      var rest := Join(parts[1..], sep);
      var last := parts[|parts| - 1];
      assert parts[1..][|parts[1..]| - 1] == last;
      assert Join(parts, sep) == (parts[0] + sep) + rest;
      assert Join(parts, sep)[|Join(parts, sep)| - |last|..] == rest[|rest| - |last|..];
    }
  }

  /** A character that occurs neither in the separator nor in any part does
      not occur in the joined string. */
  lemma {:induction false} JoinAvoids(parts: seq<string>, sep: string, c: char)
    requires c !in sep
    requires forall i :: 0 <= i < |parts| ==> c !in parts[i]
    ensures c !in Join(parts, sep)
  {
    if |parts| > 1 {
      JoinAvoids(parts[1..], sep, c);
    }
  }

  /** The index of the first occurrence of `c` in `s`. */
  function IndexOf(s: string, c: char): (i: nat)
    requires c in s
    ensures i < |s| && s[i] == c && c !in s[..i]
  {
    if s[0] == c then 0 else 1 + IndexOf(s[1..], c)
  }

  /** The first occurrence is the only position holding `c` with no `c`
      before it. */
  lemma {:induction false} IndexOfAt(s: string, c: char, k: nat)
    requires k < |s| && s[k] == c && c !in s[..k]
    ensures IndexOf(s, c) == k
  {
    if k > 0 {
      assert s[0] in s[..k];
      assert s[1..][k - 1] == c && s[1..][..k - 1] == s[1..k];
      IndexOfAt(s[1..], c, k - 1);
    }
  }

  /** `s.rfind(c)`: the position of the last occurrence, if any. */
  function LastIndexOf(s: string, c: char): (r: Option<nat>)
    ensures r.None? <==> c !in s
    ensures r.Some? ==> r.value < |s| && s[r.value] == c && c !in s[r.value + 1..]
  {
    if s == [] then None
    else if s[|s| - 1] == c then Some(|s| - 1)
    else LastIndexOf(s[..|s| - 1], c)
  }

  /** `s.split(c)` for a one-character separator. */
  function Split(s: string, c: char): (r: seq<string>)
    ensures |r| > 0
    decreases |s|
  {
    if c !in s then [s]
    else
      var i := IndexOf(s, c);
      [s[..i]] + Split(s[i + 1..], c)
  }

  /** Splitting at the first separator: the piece before it, then the
      split of what follows. */
  lemma SplitAt(s: string, c: char, k: nat)
    requires k < |s| && s[k] == c && c !in s[..k]
    ensures Split(s, c) == [s[..k]] + Split(s[k + 1..], c)
  {
    assert c in s;
    IndexOfAt(s, c, k);
  }

  /** Splitting a join at its one-character separator gives the parts back,
      provided no part contains the separator. */
  lemma {:induction false} SplitJoin(parts: seq<string>, c: char)
    requires |parts| > 0
    requires forall i :: 0 <= i < |parts| ==> c !in parts[i]
    ensures Split(Join(parts, [c]), c) == parts
  {
    if |parts| > 1 {
      var p := parts[0];
      var rest := Join(parts[1..], [c]);
      var s := Join(parts, [c]);
      assert s == p + [c] + rest;
      assert s[..|p|] == p && s[|p| + 1..] == rest;
      SplitAt(s, c, |p|);
      SplitJoin(parts[1..], c);
      assert parts == [p] + parts[1..];
    } else {
      assert c !in parts[0];
    }
  }

  function DigitChar(d: nat): (c: char)
    requires d < 10
    ensures '0' <= c <= '9'
  {
    (48 + d) as char
  }

  /** `str(n)` for a natural number: its decimal digits. */
  function NatToString(n: nat): (r: string)
    ensures |r| > 0
    ensures forall i :: 0 <= i < |r| ==> '0' <= r[i] <= '9'
    ensures |r| == 1 <==> n < 10
  {
    if n < 10 then [DigitChar(n)] else NatToString(n / 10) + [DigitChar(n % 10)]
  }

  /** Different numbers have different decimal renderings. */
  lemma {:induction false} NatToStringInjective(a: nat, b: nat)
    requires NatToString(a) == NatToString(b)
    ensures a == b
  {
    if 10 <= a && 10 <= b {
      var sa, sb := NatToString(a), NatToString(b);
      assert sa[|sa| - 1] == DigitChar(a % 10) && sb[|sb| - 1] == DigitChar(b % 10);
      assert sa[..|sa| - 1] == NatToString(a / 10);
      assert sb[..|sb| - 1] == NatToString(b / 10);
      NatToStringInjective(a / 10, b / 10);
    }
  }

  /** The quote character `repr()` chooses for a string. */
  function ReprQuote(s: string): char {
    if '\'' in s && '"' !in s then '"' else '\''
  }

  function HexDigit(d: nat): (c: char)
    requires d < 16
    ensures '0' <= c <= '9' || 'a' <= c <= 'f'
  {
    if d < 10 then (48 + d) as char else (87 + d) as char
  }

  /** The characters up to U+00FF that Python does not print as they are:
      the C0 controls, DEL, the C1 controls, the no-break space and the soft
      hyphen. */
  predicate NonPrintableNarrow(c: char) {
    var n := c as int;
    n < 0x20 || 0x7f <= n <= 0xa0 || n == 0xad
  }

  /** The characters above U+00FF that the model lets `repr()` escape: the
      Unicode space, line and paragraph separators, the zero-width and
      direction marks and the byte-order mark. */
  predicate NonPrintableWide(c: char) {
    var n := c as int;
    n == 0x1680 || (0x2000 <= n <= 0x200f) || (0x2028 <= n <= 0x202f) || n == 0x205f
    || (0x2060 <= n <= 0x2064) || n == 0x3000 || n == 0xfeff
  }

  /** How `repr()` writes one character inside the quotes `quote`. */
  function EscapeChar(c: char, quote: char): string {
    var n := c as int;
    if c == quote || c == '\\' then ['\\', c]
    else if c == '\t' then ['\\', 't']
    else if c == '\n' then ['\\', 'n']
    else if c == '\r' then ['\\', 'r']
    else if NonPrintableNarrow(c) then ['\\', 'x', HexDigit(n / 16), HexDigit(n % 16)]
    else if NonPrintableWide(c) then
      ['\\', 'u', HexDigit(n / 0x1000), HexDigit(n / 0x100 % 16), HexDigit(n / 16 % 16), HexDigit(n % 16)]
    else [c]
  }

  function EscapeAll(s: string, quote: char): string {
    if s == [] then [] else EscapeChar(s[0], quote) + EscapeAll(s[1..], quote)
  }

  /** `repr(s)` for a string. */
  function PyStrRepr(s: string): string {
    var q := ReprQuote(s);
    [q] + EscapeAll(s, q) + [q]
  }

  /** `repr(items)` (equally `str(items)`) for a list of strings. */
  function PyListRepr(items: seq<string>): string {
    "[" + Join(seq(|items|, i requires 0 <= i < |items| => PyStrRepr(items[i])), ", ") + "]"
  }

  /** A character `repr()` writes as it is. */
  predicate Printable(c: char) {
    !NonPrintableNarrow(c) && !NonPrintableWide(c)
  }

  /** Escaping leaves no non-printable character behind. */
  lemma {:induction false} EscapeAllAvoids(s: string, quote: char, c: char)
    requires Printable(quote) && !Printable(c)
    ensures c !in EscapeAll(s, quote)
  {
    if s != [] {
      assert c !in EscapeChar(s[0], quote);
      EscapeAllAvoids(s[1..], quote, c);
    }
  }

  /** `repr()` of a list of strings is printable: every control character,
      and every other character the model treats as non-printable, inside an
      item is written as an escape. */
  lemma PyListReprPrintable(items: seq<string>)
    ensures forall c :: c in PyListRepr(items) ==> Printable(c)
  {
    var reprs := seq(|items|, i requires 0 <= i < |items| => PyStrRepr(items[i]));
    forall c | !Printable(c)
      ensures c !in PyListRepr(items)
    {
      forall i | 0 <= i < |reprs|
        ensures c !in reprs[i]
      {
        EscapeAllAvoids(items[i], ReprQuote(items[i]), c);
      }
      JoinAvoids(reprs, ", ", c);
    }
  }

  /** In particular it never contains a line break: a newline inside an item
      is written as the two characters `\n`. */
  lemma PyListReprSingleLine(items: seq<string>)
    ensures '\n' !in PyListRepr(items)
  {
    PyListReprPrintable(items);
  }
}
