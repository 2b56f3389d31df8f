/**
 * Character and string helpers shared by every module: the fragments of
 * Python's `str`, `re` and `posixpath` behaviour that the downloader relies on,
 * written out over `seq<char>`.
 */
module Text {

  datatype Option<+T> = None | Some(value: T)

  /** `\d` restricted to ASCII digits. */
  predicate IsDigit(c: char) { '0' <= c <= '9' }

  /** The ASCII characters Python's `str.isspace` (and so `\s` and `str.strip`) accept. */
  predicate IsSpace(c: char) {
    c == ' ' || c == '\t' || c == '\n' || c == '\r' || c == '\U{0B}' || c == '\U{0C}'
    || ('\U{1C}' <= c <= '\U{1F}')
  }

  predicate AllDigits(s: string) {
    forall i :: 0 <= i < |s| ==> IsDigit(s[i])
  }

  function DigitValue(c: char): (d: nat)
    requires IsDigit(c)
    ensures d < 10
  {
    c as int - '0' as int
  }

  function DigitChar(d: nat): (c: char)
    requires d < 10
    ensures IsDigit(c) && DigitValue(c) == d
  {
    ('0' as int + d) as char
  }

  /** The value of a decimal numeral, as Python's `int` reads it. */
  function DigitsValue(s: string): nat
    requires AllDigits(s)
    decreases |s|
  {
    if s == [] then 0 else DigitsValue(s[..|s| - 1]) * 10 + DigitValue(s[|s| - 1])
  }

  function Pow10(n: nat): (r: nat)
    ensures r >= 1
  {
    if n == 0 then 1 else 10 * Pow10(n - 1)
  }

  /** A numeral of length n denotes a value below 10^n. */
  lemma {:induction false} DigitsValueBound(s: string)
    requires AllDigits(s)
    ensures DigitsValue(s) < Pow10(|s|)
  {
    if s != [] {
      DigitsValueBound(s[..|s| - 1]);
    }
  }

  /** Python's `str(n)` for a non-negative integer. */
  function NatToString(n: nat): (r: string)
    ensures |r| >= 1 && AllDigits(r)
    ensures r[0] != '0' || n == 0
    decreases n
  {
    if n < 10 then [DigitChar(n)] else NatToString(n / 10) + [DigitChar(n % 10)]
  }

  /** Reading back what `str` wrote gives the number again. */
  lemma {:induction false} NatToStringRoundTrip(n: nat)
    ensures DigitsValue(NatToString(n)) == n
  {
    if n >= 10 {
      var s := NatToString(n);
      assert s[..|s| - 1] == NatToString(n / 10);
      NatToStringRoundTrip(n / 10);
    }
  }

  /** Python's `str(n)` for any integer. */
  function IntToString(n: int): (r: string)
    ensures n >= 0 ==> r == NatToString(n)
    ensures n < 0 ==> r == "-" + NatToString(-n)
  {
    if n < 0 then "-" + NatToString(-n) else NatToString(n)
  }

  /** Python's `f"{n:02d}"`: at least two characters, zero-padded for 0..9. */
  function Pad2(n: int): (r: string)
  {
    if 0 <= n < 10 then ['0', DigitChar(n)] else IntToString(n)
  }

  /** `Pad2` always yields two or more characters, and for n >= 0 a numeral of n. */
  lemma Pad2Spec(n: int)
    ensures |Pad2(n)| >= 2
    ensures n >= 0 ==> AllDigits(Pad2(n)) && DigitsValue(Pad2(n)) == n
    ensures n >= 10 ==> Pad2(n) == NatToString(n)
  {
    if n >= 10 {
      NatToStringRoundTrip(n);
    } else if n >= 0 {
      var p := Pad2(n);
      assert p[..1] == "0" && p[..1][..0] == [];
      assert DigitsValue(p[..1]) == 0;
    }
  }

  /** Python's `str.lstrip()` / `str.rstrip()` / `str.strip()` on ASCII whitespace. */
  function TrimLeft(s: string): (r: string)
    ensures |r| <= |s| && r == s[|s| - |r|..]
    ensures r == [] || !IsSpace(r[0])
  {
    if s != [] && IsSpace(s[0]) then TrimLeft(s[1..]) else s
  }

  function TrimRight(s: string): (r: string)
    ensures |r| <= |s| && r == s[..|r|]
    ensures r == [] || !IsSpace(r[|r| - 1])
  {
    if s != [] && IsSpace(s[|s| - 1]) then TrimRight(s[..|s| - 1]) else s
  }

  function Strip(s: string): (r: string)
    ensures r == [] || (!IsSpace(r[0]) && !IsSpace(r[|r| - 1]))
  {
    TrimRight(TrimLeft(s))
  }

  /** Python's `str.lower()` on ASCII letters. */
  function LowerChar(c: char): char {
    if 'A' <= c <= 'Z' then (c as int + 32) as char else c
  }

  function Lower(s: string): (r: string)
    ensures |r| == |s|
  {
    seq(|s|, i requires 0 <= i < |s| => LowerChar(s[i]))
  }

  predicate StartsWith(s: string, prefix: string) {
    |prefix| <= |s| && s[..|prefix|] == prefix
  }

  predicate EndsWith(s: string, suffix: string) {
    |suffix| <= |s| && s[|s| - |suffix|..] == suffix
  }

  /** Python's `needle in hay` on strings. */
  predicate Contains(needle: string, hay: string)
    decreases |hay|
  {
    StartsWith(hay, needle) || (hay != [] && Contains(needle, hay[1..]))
  }

  /** A needle longer than the haystack never occurs in it. */
  lemma {:induction false} ContainsShorter(needle: string, hay: string)
    requires |hay| < |needle|
    ensures !Contains(needle, hay)
    decreases |hay|
  {
    if hay != [] {
      ContainsShorter(needle, hay[1..]);
    }
  }

  predicate OccursAt(needle: string, hay: string, i: int) {
    0 <= i <= |hay| - |needle| && hay[i..i + |needle|] == needle
  }

  /** `Contains` holds exactly when the needle occurs at some position. */
  lemma {:induction false} ContainsSpec(needle: string, hay: string)
    ensures Contains(needle, hay) <==> exists i :: OccursAt(needle, hay, i)
    decreases |hay|
  {
    if Contains(needle, hay) {
      if StartsWith(hay, needle) {
        assert OccursAt(needle, hay, 0);
      } else {
        ContainsSpec(needle, hay[1..]);
        var i :| OccursAt(needle, hay[1..], i);
        assert hay[1..][i..i + |needle|] == hay[i + 1..i + 1 + |needle|];
        assert OccursAt(needle, hay, i + 1);
      }
    } else if exists i :: OccursAt(needle, hay, i) {
      var i :| OccursAt(needle, hay, i);
      if i == 0 {
        assert false;
      } else {
        assert hay[1..][i - 1..i - 1 + |needle|] == hay[i..i + |needle|];
        assert OccursAt(needle, hay[1..], i - 1);
        ContainsSpec(needle, hay[1..]);
      }
    }
  }

  /** Python's `s.replace(pat, rep)`: every non-overlapping occurrence, left to right. */
  function ReplaceAll(s: string, pat: string, rep: string): (r: string)
    requires pat != []
    decreases |s|
  {
    if |s| < |pat| then s
    else if s[..|pat|] == pat then rep + ReplaceAll(s[|pat|..], pat, rep)
    else [s[0]] + ReplaceAll(s[1..], pat, rep)
  }

  /** Replacing by a longer string makes a string that contains the pattern strictly longer. */
  lemma {:induction false} ReplaceAllGrows(s: string, pat: string, rep: string)
    requires pat != [] && |rep| > |pat|
    ensures |ReplaceAll(s, pat, rep)| >= |s|
    ensures Contains(pat, s) ==> |ReplaceAll(s, pat, rep)| > |s|
    decreases |s|
  {
    if |s| < |pat| {
      if Contains(pat, s) {
        ContainsSpec(pat, s);
      }
    } else if s[..|pat|] == pat {
      ReplaceAllGrows(s[|pat|..], pat, rep);
    } else {
      ReplaceAllGrows(s[1..], pat, rep);
    }
  }

  /** Without an occurrence of the pattern, replacement changes nothing. */
  lemma {:induction false} ReplaceAllAbsent(s: string, pat: string, rep: string)
    requires pat != [] && !Contains(pat, s)
    ensures ReplaceAll(s, pat, rep) == s
    decreases |s|
  {
    if |s| >= |pat| {
      assert !StartsWith(s, pat);
      ReplaceAllAbsent(s[1..], pat, rep);
    }
  }

  /** The characters `re.sub(r'[<>:"/\\|?*]', "", ...)` removes. */
  predicate Forbidden(c: char) {
    c == '<' || c == '>' || c == ':' || c == '"' || c == '/' || c == '\\' || c == '|' || c == '?' || c == '*'
  }

  predicate NoForbidden(s: string) {
    forall i :: 0 <= i < |s| ==> !Forbidden(s[i])
  }

  /** Filesystem sanitisation of titles and filenames. */
  function Sanitize(s: string): (r: string)
    ensures NoForbidden(r)
    ensures |r| <= |s|
  {
    if s == [] then []
    else (if Forbidden(s[0]) then [] else [s[0]]) + Sanitize(s[1..])
  }

  lemma {:induction false} SanitizeConcat(a: string, b: string)
    ensures Sanitize(a + b) == Sanitize(a) + Sanitize(b)
  {
    if a != [] {
      var h := if Forbidden(a[0]) then [] else [a[0]];
      assert (a + b)[0] == a[0] && (a + b)[1..] == a[1..] + b;
      assert Sanitize(a + b) == h + Sanitize(a[1..] + b);
      SanitizeConcat(a[1..], b);
      assert Sanitize(a) == h + Sanitize(a[1..]);
    } else {
      assert a + b == b;
    }
  }

  /** A string with nothing to remove is left as it is; so sanitising twice changes nothing. */
  lemma {:induction false} SanitizeKeepsClean(s: string)
    requires NoForbidden(s)
    ensures Sanitize(s) == s
  {
    if s != [] {
      SanitizeKeepsClean(s[1..]);
    }
  }

  lemma SanitizeIdempotent(s: string)
    ensures Sanitize(Sanitize(s)) == Sanitize(s)
  {
    SanitizeKeepsClean(Sanitize(s));
  }

  /** Sanitising removes exactly the forbidden characters: every other character keeps its count. */
  lemma {:induction false} SanitizeCounts(s: string, c: char)
    ensures Forbidden(c) ==> multiset(Sanitize(s))[c] == 0
    ensures !Forbidden(c) ==> multiset(Sanitize(s))[c] == multiset(s)[c]
  {
    if s != [] {
      SanitizeCounts(s[1..], c);
      assert s == [s[0]] + s[1..];
    }
  }

  /** `s.split('/')[-1]`: the part after the last slash. */
  function LastSegment(s: string): (r: string)
    ensures '/' !in r
    ensures EndsWith(s, r)
    ensures |r| < |s| ==> s[|s| - |r| - 1] == '/'
    decreases |s|
  {
    if s == [] || s[|s| - 1] == '/' then []
    else LastSegment(s[..|s| - 1]) + [s[|s| - 1]]
  }

  /** `posixpath.join(a, b)`. */
  function Join(a: string, b: string): (r: string)
    ensures StartsWith(b, "/") ==> r == b
    ensures !StartsWith(b, "/") ==> EndsWith(r, b) && StartsWith(r, a)
  {
    if StartsWith(b, "/") then b
    else if a == [] || a[|a| - 1] == '/' then a + b
    else a + "/" + b
  }

  /** Joining one directory with a name that has no slash gives back that name as basename. */
  lemma JoinBasename(dir: string, name: string)
    requires '/' !in name && name != []
    ensures LastSegment(Join(dir, name)) == name
  {
    var j := Join(dir, name);
    assert j[|j| - |name|..] == name;
    assert j == name || j[|j| - |name| - 1] == '/';
  }

  /** `posixpath.dirname(p)`: everything before the last slash, trailing slashes removed unless it is all slashes. */
  function Dirname(p: string): (r: string)
    ensures |r| <= |p|
  {
    var head := p[..|p| - |LastSegment(p)|];
    if AllSlashes(head) then head else StripTrailingSlashes(head)
  }

  predicate AllSlashes(s: string) {
    forall i :: 0 <= i < |s| ==> s[i] == '/'
  }

  function StripTrailingSlashes(s: string): (r: string)
    ensures |r| <= |s|
  {
    if s != [] && s[|s| - 1] == '/' then StripTrailingSlashes(s[..|s| - 1]) else s
  }

  /** `os.path.abspath` without the normalisation step: a relative path is joined to the working directory. */
  function Abspath(cwd: string, p: string): (r: string)
    ensures StartsWith(p, "/") ==> r == p
  {
    if StartsWith(p, "/") then p else Join(cwd, p)
  }

  // ---------------------------------------------------------------------------
  // `repr` of a string, as `str()` of an OSError writes the file name

  /** The quote `repr` puts around a string: `"` when it holds a `'` and no `"`, else `'`. */
  function ReprQuote(s: string): (q: char)
    ensures q == '"' || q == '\''
    ensures q == '"' <==> '\'' in s && '"' !in s
  {
    if '\'' in s && '"' !in s then '"' else '\''
  }

  /** A lower-case hexadecimal digit. */
  function HexDigit(d: nat): (c: char)
    requires d < 16
  {
    if d < 10 then (48 + d) as char else (87 + d) as char
  }

  predicate IsHex(c: char) { '0' <= c <= '9' || 'a' <= c <= 'f' }

  function HexValue(c: char): (d: nat)
    ensures d < 16
  {
    if '0' <= c <= '9' then c as int - 48 else if 'a' <= c <= 'f' then c as int - 87 else 0
  }

  /** The characters `repr` writes as they are between `q` quotes. */
  predicate ReprVerbatim(c: char, q: char) {
    c != q && c != '\\' && ' ' <= c && c != '\U{7F}'
  }

  /** One character as `repr` writes it between `q` quotes: the quote and the backslash
      escaped, tab, newline and carriage return by name, other ASCII control characters as
      `\xhh`. */
  function ReprChar(c: char, q: char): string {
    if c == q || c == '\\' then ['\\', c]
    else if c == '\t' then "\\t"
    else if c == '\n' then "\\n"
    else if c == '\r' then "\\r"
    else if c < ' ' || c == '\U{7F}' then ['\\', 'x', HexDigit(c as int / 16), HexDigit(c as int % 16)]
    else [c]
  }

  function ReprBody(s: string, q: char): string
    decreases |s|
  {
    if s == [] then [] else ReprChar(s[0], q) + ReprBody(s[1..], q)
  }

  /** `repr(s)`: the body between the chosen quotes. */
  function PyRepr(s: string): string {
    [ReprQuote(s)] + ReprBody(s, ReprQuote(s)) + [ReprQuote(s)]
  }

  function Prepend(c: char, r: Option<string>): Option<string> {
    if r.Some? then Some([c] + r.value) else None
  }

  /** The string a Python literal body quoted with `q` denotes, for the escapes `repr`
      writes; `None` when the body holds a bare `q` or another escape. */
  function ReadBody(t: string, q: char): Option<string>
    decreases |t|
  {
    if t == [] then Some([])
    else if t[0] == q then None
    else if t[0] != '\\' then Prepend(t[0], ReadBody(t[1..], q))
    else if |t| < 2 then None
    else if t[1] == '\\' || t[1] == '\'' || t[1] == '"' then Prepend(t[1], ReadBody(t[2..], q))
    else if t[1] == 't' then Prepend('\t', ReadBody(t[2..], q))
    else if t[1] == 'n' then Prepend('\n', ReadBody(t[2..], q))
    else if t[1] == 'r' then Prepend('\r', ReadBody(t[2..], q))
    else if t[1] == 'x' && |t| >= 4 && IsHex(t[2]) && IsHex(t[3]) then
      Prepend((16 * HexValue(t[2]) + HexValue(t[3])) as char, ReadBody(t[4..], q))
    else None
  }

  /** The string a quoted Python literal denotes. */
  function ReadRepr(r: string): Option<string> {
    if |r| >= 2 && (r[0] == '\'' || r[0] == '"') && r[|r| - 1] == r[0] then ReadBody(r[1..|r| - 1], r[0])
    else None
  }

  lemma HexRoundTrip(n: nat)
    requires n < 256
    ensures IsHex(HexDigit(n / 16)) && IsHex(HexDigit(n % 16))
    ensures 16 * HexValue(HexDigit(n / 16)) + HexValue(HexDigit(n % 16)) == n
  {
  }

  lemma ReadReprChar(c: char, q: char, rest: string)
    requires q == '\'' || q == '"'
    ensures ReadBody(ReprChar(c, q) + rest, q) == Prepend(c, ReadBody(rest, q))
  {
    var t := ReprChar(c, q) + rest;
    if ReprVerbatim(c, q) {
      assert t[1..] == rest;
    } else if |ReprChar(c, q)| == 2 {
      assert t[2..] == rest;
    } else {
      HexRoundTrip(c as int);
      assert t[4..] == rest;
    }
  }

  lemma {:induction false} ReprBodyReadsBack(s: string, q: char)
    requires q == '\'' || q == '"'
    ensures ReadBody(ReprBody(s, q), q) == Some(s)
    decreases |s|
  {
    if s != [] {
      var rest := ReprBody(s[1..], q);
      assert ReprBody(s, q) == ReprChar(s[0], q) + rest;
      ReadReprChar(s[0], q, rest);
      ReprBodyReadsBack(s[1..], q);
      assert [s[0]] + s[1..] == s;
    }
  }

  /** Read back as a Python literal, `repr(s)` denotes `s`, whatever it holds. */
  lemma ReprReadsBack(s: string)
    ensures ReadRepr(PyRepr(s)) == Some(s)
  {
    var q := ReprQuote(s);
    var r := [q] + ReprBody(s, q) + [q];
    assert r[1..|r| - 1] == ReprBody(s, q);
    ReprBodyReadsBack(s, q);
  }

  /** A string with nothing to escape is written as it is between its quotes: `'s'`, or
      `"s"` when it holds a `'` and no `"`. */
  lemma {:induction false} ReprPlain(s: string)
    requires forall i :: 0 <= i < |s| ==> ReprVerbatim(s[i], ReprQuote(s))
    ensures PyRepr(s) == [ReprQuote(s)] + s + [ReprQuote(s)]
  {
    PlainBody(s, ReprQuote(s));
  }

  lemma {:induction false} PlainBody(s: string, q: char)
    requires forall i :: 0 <= i < |s| ==> ReprVerbatim(s[i], q)
    ensures ReprBody(s, q) == s
    decreases |s|
  {
    if s != [] {
      assert ReprVerbatim(s[0], q);
      assert forall i :: 0 <= i < |s[1..]| ==> ReprVerbatim(s[1..][i], q) by {
        forall i | 0 <= i < |s[1..]| ensures ReprVerbatim(s[1..][i], q) {
          assert s[1..][i] == s[i + 1];
        }
      }
      PlainBody(s[1..], q);
      assert [s[0]] + s[1..] == s;
    }
  }
}
