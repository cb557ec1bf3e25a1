/**
 * The string primitives the storefront relies on (`trim`, `toLowerCase`, `split(/\s+/)`,
 * `replace(/\/$/, "")`, `Number(...)`, `parseFloat(...)`, `String(n)`, `encodeURIComponent`),
 * restricted to what the shop actually feeds them: ASCII case folding and white space,
 * and integer-valued numbers.
 */
module Text {
  import opened Wrappers

  /** White space as `trim` and `/\s/` see it (the ASCII part). */
  predicate IsSpace(c: char) {
    c == ' ' || c == '\t' || c == '\n' || c == '\r' || c as int == 11 || c as int == 12
  }

  predicate IsDigit(c: char) { '0' <= c <= '9' }

  predicate AllSpace(s: string) { forall i :: 0 <= i < |s| ==> IsSpace(s[i]) }
  predicate NoSpace(s: string) { forall i :: 0 <= i < |s| ==> !IsSpace(s[i]) }
  predicate AllDigits(s: string) { forall i :: 0 <= i < |s| ==> IsDigit(s[i]) }

  predicate StartsWith(s: string, p: string) { |p| <= |s| && s[..|p|] == p }
  predicate EndsWith(s: string, p: string) { |p| <= |s| && s[|s| - |p|..] == p }

  /** `t` occurs in `s` starting at index `k`. */
  predicate OccursAt(s: string, t: string, k: nat) { k + |t| <= |s| && s[k..k + |t|] == t }

  /** `s.includes(t)` */
  predicate Contains(s: string, t: string) {
    exists k: nat :: k <= |s| && OccursAt(s, t, k)
  }

  // ---------------------------------------------------------------- trimming

  function TrimStart(s: string): (r: string)
    ensures |r| <= |s| && r == s[|s| - |r|..]
    ensures r == [] || !IsSpace(r[0])
    ensures AllSpace(s[..|s| - |r|])
  {
    if s != [] && IsSpace(s[0]) then
      var r := TrimStart(s[1..]);
      var k := |s| - |r|;
      assert s[k..] == s[1..][k - 1..];
      assert forall i :: 1 <= i < k ==> s[..k][i] == s[1..][..k - 1][i - 1];
      r
    else s
  }

  function TrimEnd(s: string): (r: string)
    ensures |r| <= |s| && r == s[..|r|]
    ensures r == [] || !IsSpace(r[|r| - 1])
    ensures AllSpace(s[|r|..])
  {
    if s != [] && IsSpace(s[|s| - 1]) then
      var r := TrimEnd(s[..|s| - 1]);
      assert s[|r|..] == s[..|s| - 1][|r|..] + [s[|s| - 1]];
      r
    else s
  }

  /** `s.trim()`: removes white space at both ends and nothing else. */
  function Trim(s: string): (r: string)
    ensures r == [] || (!IsSpace(r[0]) && !IsSpace(r[|r| - 1]))
    ensures r == [] <==> AllSpace(s)
    ensures s == [] || (!IsSpace(s[0]) && !IsSpace(s[|s| - 1])) ==> r == s
  {
    TrimBlank(s);
    TrimEnd(TrimStart(s))
  }

  lemma TrimBlank(s: string)
    ensures TrimEnd(TrimStart(s)) == [] <==> AllSpace(s)
  {
    if AllSpace(s) {
      TrimStartOfSpace(s);
    }
    if TrimEnd(TrimStart(s)) == [] {
      TrimEmptyOnlySpace(s);
    }
  }

  lemma {:induction false} TrimStartOfSpace(s: string)
    requires AllSpace(s)
    ensures TrimStart(s) == []
  {
    if s != [] {
      assert AllSpace(s[1..]) by { assert forall i :: 0 <= i < |s| - 1 ==> s[1..][i] == s[i + 1]; }
      TrimStartOfSpace(s[1..]);
    }
  }

  lemma {:induction false} TrimEmptyOnlySpace(s: string)
    requires TrimEnd(TrimStart(s)) == []
    ensures AllSpace(s)
  {
    if s != [] && IsSpace(s[0]) {
      assert TrimStart(s) == TrimStart(s[1..]);
      TrimEmptyOnlySpace(s[1..]);
      forall i | 0 <= i < |s| ensures IsSpace(s[i]) {
        if i > 0 { assert s[i] == s[1..][i - 1]; }
      }
    } else {
      assert TrimStart(s) == s;
      assert |TrimEnd(s)| == 0;
      assert s[0..] == s;
    }
  }

  // ------------------------------------------------------------ case folding

  function LowerChar(c: char): (d: char)
    ensures !('A' <= d <= 'Z')
    ensures !('A' <= c <= 'Z') ==> d == c
    ensures 'A' <= c <= 'Z' ==> 'a' <= d <= 'z' && d as int == c as int + ('a' as int - 'A' as int)
  {
    if 'A' <= c <= 'Z' then (c as int + 32) as char else c
  }

  /** `s.toLowerCase()` on the ASCII letters. */
  function Lower(s: string): (r: string)
    ensures |r| == |s|
    ensures forall i :: 0 <= i < |r| ==> r[i] == LowerChar(s[i])
    ensures forall i :: 0 <= i < |r| ==> !('A' <= r[i] <= 'Z')
  {
    seq(|s|, i requires 0 <= i < |s| => LowerChar(s[i]))
  }

  lemma LowerIdempotent(s: string)
    ensures Lower(Lower(s)) == Lower(s)
  {
    var l := Lower(s);
    assert forall i :: 0 <= i < |l| ==> LowerChar(l[i]) == l[i];
  }

  /** Text with no upper-case letter is its own lower case. */
  lemma LowerOfLowercase(s: string)
    requires forall i :: 0 <= i < |s| ==> !('A' <= s[i] <= 'Z')
    ensures Lower(s) == s
  {
  }

  // ---------------------------------------------------------------- slashes

  /** `s.replace(/\/$/, "")`: removes exactly one trailing slash, if there is one. */
  function DropTrailingSlash(s: string): (r: string)
    ensures EndsWith(s, "/") ==> r + "/" == s
    ensures !EndsWith(s, "/") ==> r == s
  {
    if s != [] && s[|s| - 1] == '/' then s[..|s| - 1] else s
  }

  // ------------------------------------------------------------------ words

  /** The leading run of non-space characters of `t`. */
  function TakeWord(t: string): (w: string)
    ensures |w| <= |t| && w == t[..|w|] && NoSpace(w)
    ensures t != [] && !IsSpace(t[0]) ==> w != []
    ensures |w| < |t| ==> IsSpace(t[|w|])
  {
    if t == [] || IsSpace(t[0]) then [] else [t[0]] + TakeWord(t[1..])
  }

  /** `s.split(/\s+/).filter(Boolean)`: the maximal runs of non-space characters, in order. */
  function Words(s: string): seq<string>
    decreases |s|
  {
    var t := TrimStart(s);
    if t == [] then []
    else
      var w := TakeWord(t);
      [w] + Words(t[|w|..])
  }

  /** Every word is a non-empty run of non-space characters. */
  lemma {:induction false} WordsAreRuns(s: string)
    ensures forall i :: 0 <= i < |Words(s)| ==> |Words(s)[i]| > 0 && NoSpace(Words(s)[i])
    decreases |s|
  {
    var t := TrimStart(s);
    if t != [] {
      var w := TakeWord(t);
      var rest := t[|w|..];
      WordsAreRuns(rest);
      var ws := Words(s);
      assert ws == [w] + Words(rest);
      forall i | 0 <= i < |ws| ensures |ws[i]| > 0 && NoSpace(ws[i]) {
        if i > 0 {
          assert ws[i] == Words(rest)[i - 1];
        }
      }
    }
  }

  /** There are no words exactly when the text is blank. */
  lemma {:induction false} WordsEmptyIffBlank(s: string)
    ensures Words(s) == [] <==> AllSpace(s)
  {
    var t := TrimStart(s);
    if t == [] {
      assert s[..|s| - |t|] == s;
    } else {
      assert !IsSpace(s[|s| - |t|]);
    }
  }

  /** A single non-blank word is its own only token. */
  lemma {:induction false} WordsOfWord(w: string)
    requires w != [] && NoSpace(w)
    ensures Words(w) == [w]
  {
    assert TrimStart(w) == w;
    var v := TakeWord(w);
    assert |v| == |w| && v == w;
    assert w[|v|..] == [];
    assert Words(w) == [v] + Words(w[|v|..]);
    assert Words([]) == [];
  }

  /** A word followed by white space is read up to that white space. */
  lemma {:induction false} TakeWordBeforeSpace(a: string, c: char, b: string)
    requires NoSpace(a) && IsSpace(c)
    ensures TakeWord(a + [c] + b) == a
  {
    if a != [] {
      assert (a + [c] + b)[1..] == a[1..] + [c] + b;
      TakeWordBeforeSpace(a[1..], c, b);
    }
  }

  /** White space in front of the text adds no word. */
  lemma WordsSkipSpace(c: char, rest: string)
    requires IsSpace(c)
    ensures Words([c] + rest) == Words(rest)
  {
    assert ([c] + rest)[1..] == rest;
    assert TrimStart([c] + rest) == TrimStart(rest);
  }

  /**
   * A word followed by white space is the first word, and the words of what follows are
   * the rest. With `WordsSkipSpace`, `WordsOfWord` and `WordsEmptyIffBlank` this pins
   * `Words` down on every text: the maximal runs of non-space characters, in order.
   */
  lemma WordsCons(w: string, c: char, rest: string)
    requires w != [] && NoSpace(w) && IsSpace(c)
    ensures Words(w + [c] + rest) == [w] + Words(rest)
  {
    var s := w + [c] + rest;
    assert s[0] == w[0];
    assert TrimStart(s) == s;
    TakeWordBeforeSpace(w, c, rest);
    assert s[|w|..] == [c] + rest;
    WordsSkipSpace(c, rest);
  }

  /** Words written out with one space between them. */
  function Unwords(ws: seq<string>): string {
    if ws == [] then [] else if |ws| == 1 then ws[0] else ws[0] + " " + Unwords(ws[1..])
  }

  /** Splitting words written out with single spaces gives the same words back. */
  lemma {:induction false} WordsOfUnwords(ws: seq<string>)
    requires forall i :: 0 <= i < |ws| ==> ws[i] != [] && NoSpace(ws[i])
    ensures Words(Unwords(ws)) == ws
  {
    if ws == [] {
      assert TrimStart([]) == [];
    } else if |ws| == 1 {
      WordsOfWord(ws[0]);
    } else {
      var tail := ws[1..];
      var u := Unwords(tail);
      assert Unwords(ws) == ws[0] + [' '] + u;
      assert forall i :: 0 <= i < |tail| ==> tail[i] == ws[i + 1];
      WordsOfUnwords(tail);
      WordsCons(ws[0], ' ', u);
      assert ws == [ws[0]] + tail;
    }
  }

  /** Words written out with single spaces neither start nor end with white space. */
  lemma {:induction false} UnwordsTrimmed(ws: seq<string>)
    requires ws != []
    requires forall i :: 0 <= i < |ws| ==> ws[i] != [] && NoSpace(ws[i])
    ensures var u := Unwords(ws); u != [] && !IsSpace(u[0]) && !IsSpace(u[|u| - 1])
  {
    if |ws| > 1 {
      var tail := ws[1..];
      assert forall i :: 0 <= i < |tail| ==> tail[i] == ws[i + 1];
      UnwordsTrimmed(tail);
      var u := Unwords(ws);
      var v := Unwords(tail);
      assert u == ws[0] + " " + v;
      assert u[0] == ws[0][0];
      assert u[|u| - 1] == v[|v| - 1];
    }
  }

  /** Lower case distributes over concatenation. */
  lemma LowerAppend(a: string, b: string)
    ensures Lower(a + b) == Lower(a) + Lower(b)
  {
  }

  /** Lower-casing words written out with spaces lower-cases each word. */
  lemma {:induction false} LowerUnwords(ws: seq<string>)
    ensures Lower(Unwords(ws)) == Unwords(seq(|ws|, i requires 0 <= i < |ws| => Lower(ws[i])))
  {
    var ls := seq(|ws|, i requires 0 <= i < |ws| => Lower(ws[i]));
    if |ws| > 1 {
      var tail := ws[1..];
      LowerUnwords(tail);
      var lt := seq(|tail|, i requires 0 <= i < |tail| => Lower(tail[i]));
      assert lt == ls[1..];
      LowerAppend(ws[0] + " ", Unwords(tail));
      LowerAppend(ws[0], " ");
      assert Lower(" ") == " ";
    }
  }

  // ----------------------------------------------------------------- digits

  /** `s.replace(/[^0-9]/g, "")` */
  function DigitsOnly(s: string): (r: string)
    ensures AllDigits(r) && |r| <= |s|
    ensures AllDigits(s) ==> r == s
    ensures |s| == 1 ==> r == (if IsDigit(s[0]) then s else [])
  {
    if s == [] then []
    else (if IsDigit(s[0]) then [s[0]] else []) + DigitsOnly(s[1..])
  }

  /**
   * The filter works character by character: the digits of `a + b` are those of `a`
   * followed by those of `b`. With the one-character case this says that every digit is
   * kept, in order, and nothing else.
   */
  lemma {:induction false} DigitsOnlyAppend(a: string, b: string)
    ensures DigitsOnly(a + b) == DigitsOnly(a) + DigitsOnly(b)
  {
    if a == [] {
      assert a + b == b;
    } else {
      assert (a + b)[1..] == a[1..] + b;
      DigitsOnlyAppend(a[1..], b);
    }
  }

  function DigitValue(c: char): nat requires IsDigit(c) { c as int - '0' as int }

  function DigitsValue(s: string): nat
    requires AllDigits(s)
  {
    if s == [] then 0 else DigitsValue(s[..|s| - 1]) * 10 + DigitValue(s[|s| - 1])
  }

  /**
   * `x / d` on naturals, as repeated subtraction. The digit and byte arithmetic below is
   * written with `Quot` and `Rem`, which only ever subtract.
   */
  function Quot(x: nat, d: nat): (q: nat)
    requires d > 0
    ensures d * q <= x
    decreases x
  {
    if x < d then 0 else 1 + Quot(x - d, d)
  }

  /** `x % d` on naturals, as repeated subtraction. */
  function Rem(x: nat, d: nat): (r: nat)
    requires d > 0
    ensures r < d
    decreases x
  {
    if x < d then x else Rem(x - d, d)
  }

  /**
   * `Quot` and `Rem` split `x` into whole multiples of `d` and a remainder below `d`,
   * which is what Euclidean division and remainder are.
   */
  lemma {:induction false} QuotRem(x: nat, d: nat)
    requires d > 0
    ensures x == d * Quot(x, d) + Rem(x, d)
    decreases x
  {
    if x >= d {
      QuotRem(x - d, d);
      assert d * Quot(x, d) == d + d * Quot(x - d, d);
    }
  }

  /** The decimal and byte splits use `Quot` and `Rem` exactly as `/` and `%` by a constant. */
  lemma QuotRemAreDivMod(x: nat)
    ensures Quot(x, 10) == x / 10 && Rem(x, 10) == x % 10
    ensures Quot(x, 16) == x / 16 && Rem(x, 16) == x % 16
    ensures Quot(x, 64) == x / 64 && Rem(x, 64) == x % 64
    ensures Quot(x, 4096) == x / 4096 && Quot(x, 0x4_0000) == x / 0x4_0000
  {
    QuotRem(x, 10);
    QuotRem(x, 16);
    QuotRem(x, 64);
    QuotRem(x, 4096);
    QuotRem(x, 0x4_0000);
  }

  /** The decimal notation of a natural number, as `String(n)` prints it. */
  function NatToString(n: nat): (r: string)
    ensures r != [] && AllDigits(r)
  {
    var d := ('0' as int + Rem(n, 10)) as char;
    if n < 10 then [d] else NatToString(Quot(n, 10)) + [d]
  }

  /** `String(n)` for an integer. */
  function IntToString(n: int): string {
    if n < 0 then "-" + NatToString(-n) else NatToString(n)
  }

  /**
   * `Number(s)` for strings, on integer notation: surrounding white space is ignored,
   * blank text is 0, an optional sign and at least one digit is that integer, and
   * anything else is NaN (`None`).
   */
  function NumberOf(s: string): Option<int> {
    var t := Trim(s);
    if t == [] then Some(0)
    else if t[0] == '-' || t[0] == '+' then
      var d := t[1..];
      if d != [] && AllDigits(d) then
        var v: int := DigitsValue(d);
        Some(if t[0] == '-' then -v else v)
      else None
    else if AllDigits(t) then Some(DigitsValue(t))
    else None
  }

  lemma {:induction false} DigitsValueOfNat(n: nat)
    ensures DigitsValue(NatToString(n)) == n
  {
    var s := NatToString(n);
    QuotRem(n, 10);
    if n >= 10 {
      DigitsValueOfNat(Quot(n, 10));
      assert s[..|s| - 1] == NatToString(Quot(n, 10));
    }
  }

  /** `Number(String(n)) == n`: printing an integer and reading it back gives it back. */
  lemma NumberOfIntToString(n: int)
    ensures NumberOf(IntToString(n)) == Some(n)
  {
    if n < 0 {
      NumberOfNegative(n);
    } else {
      NumberOfNonNegative(n);
    }
  }

  lemma NumberOfNonNegative(n: nat)
    ensures NumberOf(IntToString(n)) == Some(n)
  {
    var d := NatToString(n);
    assert IntToString(n) == d;
    DigitsValueOfNat(n);
    NumberOfDigits(d);
  }

  lemma NumberOfDigits(d: string)
    requires d != [] && AllDigits(d)
    ensures NumberOf(d) == Some(DigitsValue(d))
  {
    assert !IsSpace(d[0]) && !IsSpace(d[|d| - 1]) by { assert IsDigit(d[0]) && IsDigit(d[|d| - 1]); }
    assert Trim(d) == d;
    assert d[0] != '-' && d[0] != '+' by { assert IsDigit(d[0]); }
  }

  lemma NumberOfNegative(n: int)
    requires n < 0
    ensures NumberOf(IntToString(n)) == Some(n)
  {
    var d := NatToString(-n);
    var s := "-" + d;
    assert IntToString(n) == s;
    DigitsValueOfNat(-n);
    assert s[1..] == d;
    assert !IsSpace(s[0]);
    assert !IsSpace(s[|s| - 1]) by { assert s[|s| - 1] == d[|d| - 1]; assert IsDigit(d[|d| - 1]); }
    assert Trim(s) == s;
    var v: int := DigitsValue(d);
    assert v == -n;
  }

  /** The leading run of digits of `t`. */
  function TakeDigits(t: string): (d: string)
    ensures |d| <= |t| && d == t[..|d|] && AllDigits(d)
    ensures |d| < |t| ==> !IsDigit(t[|d|])
  {
    if t == [] || !IsDigit(t[0]) then [] else [t[0]] + TakeDigits(t[1..])
  }

  /**
   * `parseFloat(s)` truncated to an integer: leading white space is skipped, then an
   * optional sign and the longest run of digits are read and the rest ignored; no
   * digit at all is NaN (`None`).
   */
  function ParseFloatPrefix(s: string): Option<int> {
    var t := TrimStart(s);
    var neg := t != [] && t[0] == '-';
    var body := if t != [] && (t[0] == '-' || t[0] == '+') then t[1..] else t;
    var d := TakeDigits(body);
    if d == [] then None
    else
      var v: int := DigitsValue(d);
      Some(if neg then -v else v)
  }

  /** parseFloat ignores whatever follows the number. */
  lemma ParseFloatIgnoresTail(d: string, tail: string)
    requires d != [] && AllDigits(d)
    requires tail == [] || !IsDigit(tail[0])
    ensures ParseFloatPrefix(d + tail) == Some(DigitsValue(d))
  {
    var s := d + tail;
    assert s[0] == d[0] && IsDigit(d[0]);
    TakeDigitsPrefix(d, tail);
    ParseFloatOfDigitStart(s);
  }

  /** Text that starts with a digit is read from its first character on. */
  lemma ParseFloatOfDigitStart(s: string)
    requires s != [] && IsDigit(s[0])
    ensures ParseFloatPrefix(s) == Some(DigitsValue(TakeDigits(s)) as int)
  {
    assert TrimStart(s) == s;
    assert s[0] != '-' && s[0] != '+';
  }

  lemma {:induction false} TakeDigitsPrefix(d: string, tail: string)
    requires AllDigits(d)
    requires tail == [] || !IsDigit(tail[0])
    ensures TakeDigits(d + tail) == d
  {
    if d != [] {
      assert (d + tail)[1..] == d[1..] + tail;
      TakeDigitsPrefix(d[1..], tail);
    } else {
      assert d + tail == tail;
    }
  }

  // ------------------------------------------------------ encodeURIComponent

  /** The characters `encodeURIComponent` leaves alone. */
  predicate Unreserved(c: char) {
    || 'A' <= c <= 'Z' || 'a' <= c <= 'z' || '0' <= c <= '9'
    || c == '-' || c == '_' || c == '.' || c == '!' || c == '~' || c == '*' || c == '\'' || c == '(' || c == ')'
  }

  function HexDigit(n: int): (c: char)
    requires 0 <= n < 16
    ensures Unreserved(c)
  {
    if n < 10 then ('0' as int + n) as char else ('A' as int + n - 10) as char
  }

  /** The UTF-8 bytes of a Unicode scalar value. */
  function Utf8(cp: int): (bs: seq<int>)
    requires 0 <= cp < 0x11_0000
    ensures 1 <= |bs| <= 4
    ensures forall i :: 0 <= i < |bs| ==> 0 <= bs[i] < 256
  {
    if cp < 0x80 then [cp]
    else if cp < 0x800 then [0xC0 + Quot(cp, 64), 0x80 + Rem(cp, 64)]
    else if cp < 0x1_0000 then
      [0xE0 + Quot(cp, 4096), 0x80 + Rem(Quot(cp, 64), 64), 0x80 + Rem(cp, 64)]
    else
      [0xF0 + Quot(cp, 0x4_0000), 0x80 + Rem(Quot(cp, 4096), 64), 0x80 + Rem(Quot(cp, 64), 64),
       0x80 + Rem(cp, 64)]
  }

  function PercentBytes(bs: seq<int>): (r: string)
    requires forall i :: 0 <= i < |bs| ==> 0 <= bs[i] < 256
    ensures |r| == 3 * |bs|
    ensures forall i :: 0 <= i < |r| ==> Unreserved(r[i]) || r[i] == '%'
  {
    if bs == [] then [] else ['%', HexDigit(Quot(bs[0], 16)), HexDigit(Rem(bs[0], 16))] + PercentBytes(bs[1..])
  }

  function EncodeChar(c: char): string {
    if Unreserved(c) then [c] else PercentBytes(Utf8(c as int))
  }

  /** `encodeURIComponent(s)`: only unreserved characters and percent escapes remain. */
  function EncodeURIComponent(s: string): (r: string)
    ensures forall i :: 0 <= i < |r| ==> Unreserved(r[i]) || r[i] == '%'
    ensures (forall i :: 0 <= i < |s| ==> Unreserved(s[i])) ==> r == s
  {
    if s == [] then [] else EncodeChar(s[0]) + EncodeURIComponent(s[1..])
  }

  // ------------------------------------------------- URLSearchParams serialiser

  /** The characters the form-urlencoded serialiser leaves alone. */
  predicate FormSafe(c: char) {
    'A' <= c <= 'Z' || 'a' <= c <= 'z' || '0' <= c <= '9' || c == '*' || c == '-' || c == '.' || c == '_'
  }

  function FormEncodeChar(c: char): (r: string)
    ensures forall i :: 0 <= i < |r| ==> Unreserved(r[i]) || r[i] == '%' || r[i] == '+'
    ensures FormSafe(c) ==> r == [c]
  {
    if c == ' ' then "+" else if FormSafe(c) then [c] else PercentBytes(Utf8(c as int))
  }

  /**
   * `URLSearchParams.toString()` for one value: a space becomes `+`, the safe characters
   * stay, everything else becomes percent escapes of its UTF-8 bytes. The result never
   * holds the `&` and `=` that separate the pairs.
   */
  function FormEncode(s: string): (r: string)
    ensures forall i :: 0 <= i < |r| ==> Unreserved(r[i]) || r[i] == '%' || r[i] == '+'
    ensures (forall i :: 0 <= i < |s| ==> FormSafe(s[i])) ==> r == s
  {
    if s == [] then []
    else
      var head := FormEncodeChar(s[0]);
      var tail := FormEncode(s[1..]);
      var r := head + tail;
      assert forall i :: 0 <= i < |r| ==> r[i] == (if i < |head| then head[i] else tail[i - |head|]);
      r
  }

  /** An encoded value never holds the `&` and `=` that separate the pairs of a query. */
  lemma FormEncodeNoSeparators(s: string)
    ensures '&' !in FormEncode(s) && '=' !in FormEncode(s)
  {
    var r := FormEncode(s);
    forall i | 0 <= i < |r|
      ensures r[i] != '&' && r[i] != '='
    {
      assert !Unreserved('&') && !Unreserved('=');
    }
  }

  /** Likewise for `encodeURIComponent`: its output has no `&`, `=` or `#`. */
  lemma EncodeNoSeparators(s: string)
    ensures '&' !in EncodeURIComponent(s) && '=' !in EncodeURIComponent(s) && '#' !in EncodeURIComponent(s)
  {
    var r := EncodeURIComponent(s);
    forall i | 0 <= i < |r|
      ensures r[i] != '&' && r[i] != '=' && r[i] != '#'
    {
      assert !Unreserved('&') && !Unreserved('=') && !Unreserved('#');
    }
  }
}
