/** Strings as the scripts use them: splitting, joining and decimal numbers. */
module Text {
  import opened Results

  // ---- Splitting ----

  /** Python's `s.split(sep)` for a one-character separator. */
  function Split(s: string, sep: char): (parts: seq<string>)
    ensures |parts| > 0
  {
    if s == "" then [""]
    else
      var rest := Split(s[1..], sep);
      if s[0] == sep then [""] + rest else [[s[0]] + rest[0]] + rest[1..]
  }

  function Join(parts: seq<string>, sep: char): string {
    if parts == [] then ""
    else if |parts| == 1 then parts[0]
    else parts[0] + [sep] + Join(parts[1..], sep)
  }

  lemma {:induction false} SplitNone(s: string, sep: char)
    requires sep !in s
    ensures Split(s, sep) == [s]
  {
    if s == "" {
    } else {
      SplitNone(s[1..], sep);
      assert [s[0]] + s[1..] == s;
    }
  }

  /** The first field is what stands before the first separator. */
  lemma {:induction false} SplitAt(a: string, b: string, sep: char)
    requires sep !in a
    ensures Split(a + [sep] + b, sep) == [a] + Split(b, sep)
  {
    var s := a + [sep] + b;
    if a == "" {
      assert s[1..] == b;
    } else {
      assert s[1..] == a[1..] + [sep] + b;
      SplitAt(a[1..], b, sep);
      assert [a[0]] + a[1..] == a;
    }
  }

  /** Splitting undoes joining when no part contains the separator. */
  lemma {:induction false} SplitJoin(parts: seq<string>, sep: char)
    requires parts != [] && forall p <- parts :: sep !in p
    ensures Split(Join(parts, sep), sep) == parts
  {
    if |parts| == 1 {
      SplitNone(parts[0], sep);
    } else {
      SplitJoin(parts[1..], sep);
      SplitAt(parts[0], Join(parts[1..], sep), sep);
    }
  }

  function Concat(ls: seq<string>): string {
    if ls == [] then "" else ls[0] + Concat(ls[1..])
  }

  lemma {:induction false} ConcatSnoc(ls: seq<string>, l: string)
    ensures Concat(ls + [l]) == Concat(ls) + l
  {
    if ls == [] {
      assert [l][1..] == [] && l + "" == l;
    } else {
      assert (ls + [l])[1..] == ls[1..] + [l];
      ConcatSnoc(ls[1..], l);
    }
  }

  // ---- Decimal numbers ----

  predicate IsDigit(c: char) {
    '0' <= c <= '9'
  }

  predicate AllDigits(s: string) {
    forall c <- s :: IsDigit(c)
  }

  function Digit(d: nat): (c: char)
    requires d < 10
    ensures IsDigit(c) && DigitValue(c) == d
  {
    '0' + d as char
  }

  function DigitValue(c: char): (d: nat)
    requires IsDigit(c)
    ensures d < 10
  {
    (c - '0') as nat
  }

  /** Python's `str` of a non-negative integer. */
  function Str(n: nat): (s: string)
    ensures s != "" && AllDigits(s)
  {
    if n < 10 then [Digit(n)] else Str(n / 10) + [Digit(n % 10)]
  }

  function Value(s: string): nat
    requires AllDigits(s)
  {
    if s == "" then 0 else 10 * Value(s[..|s| - 1]) + DigitValue(s[|s| - 1])
  }

  /** Python's `int` on a string of digits; anything else is an error. */
  function ParseNat(s: string): Option<nat> {
    if s != "" && AllDigits(s) then Some(Value(s)) else None
  }

  lemma {:induction false} ValueStr(n: nat)
    ensures Value(Str(n)) == n
  {
    if n >= 10 {
      ValueStr(n / 10);
      var s := Str(n);
      assert s[..|s| - 1] == Str(n / 10);
    }
  }

  /** A number is written with its last digit last, and a digit as its character. */
  lemma StrSpelled(n: nat, d: nat)
    requires d < 10
    ensures Str(d) == ["0123456789"[d]]
    ensures n > 0 ==> Str(10 * n + d) == Str(n) + ["0123456789"[d]]
  {
    assert "0123456789"[d] == Digit(d);
  }

  lemma ParseStr(n: nat)
    ensures ParseNat(Str(n)) == Some(n)
  {
    ValueStr(n);
  }

  // ---- Padding ----

  function Zeros(n: nat): (s: string)
    ensures |s| == n && AllDigits(s)
  {
    seq(n, _ => '0')
  }

  /** Python's `zfill`, also the padding of `%02d`. */
  function ZFill(s: string, width: nat): (r: string)
    ensures |r| >= width && |r| >= |s|
    ensures AllDigits(s) ==> AllDigits(r)
  {
    if |s| >= width then s else Zeros(width - |s|) + s
  }

  lemma {:induction false} ValueZeros(n: nat, s: string)
    requires AllDigits(s)
    ensures AllDigits(Zeros(n) + s) && Value(Zeros(n) + s) == Value(s)
  {
    var t := Zeros(n) + s;
    if s == "" {
      assert t == Zeros(n);
      if n > 0 {
        ValueZeros(n - 1, "");
        assert t[..n - 1] == Zeros(n - 1) + "";
      }
    } else {
      ValueZeros(n, s[..|s| - 1]);
      assert t[..|t| - 1] == Zeros(n) + s[..|s| - 1];
    }
  }

  lemma ValueZFill(s: string, width: nat)
    requires AllDigits(s)
    ensures Value(ZFill(s, width)) == Value(s)
  {
    if |s| < width {
      ValueZeros(width - |s|, s);
    }
  }

  lemma ParseZFill(n: nat, width: nat)
    ensures ParseNat(ZFill(Str(n), width)) == Some(n)
  {
    ValueZFill(Str(n), width);
    ValueStr(n);
  }

  // ---- Order ----

  /** Strings compare character by character. */
  predicate TextBefore(a: string, b: string) {
    a == "" || (b != "" && (a[0] < b[0] || (a[0] == b[0] && TextBefore(a[1..], b[1..]))))
  }

  lemma {:induction false} TextTotal(a: string, b: string)
    ensures TextBefore(a, b) || TextBefore(b, a)
    ensures TextBefore(a, b) && TextBefore(b, a) ==> a == b
  {
    if a != "" && b != "" && a[0] == b[0] {
      TextTotal(a[1..], b[1..]);
      assert a == [a[0]] + a[1..] && b == [b[0]] + b[1..];
    }
  }

  lemma {:induction false} TextTransitive(a: string, b: string, c: string)
    requires TextBefore(a, b) && TextBefore(b, c)
    ensures TextBefore(a, c)
  {
    if a != "" && a[0] == b[0] == c[0] {
      TextTransitive(a[1..], b[1..], c[1..]);
    }
  }

  lemma {:induction false} TextAfterPrefix(p: string, a: string, b: string)
    ensures TextBefore(p + a, p + b) <==> TextBefore(a, b)
  {
    if p == "" {
      assert p + a == a && p + b == b;
    } else {
      assert (p + a)[1..] == p[1..] + a && (p + b)[1..] == p[1..] + b;
      TextAfterPrefix(p[1..], a, b);
    }
  }

  // ---- White space ----

  /** Python's `isspace`. */
  predicate IsSpace(c: char) {
    || '\t' <= c <= '\r' || '\U{1C}' <= c <= ' ' || c == '\U{85}' || c == '\U{A0}' || c == '\U{1680}'
    || '\U{2000}' <= c <= '\U{200A}' || '\U{2028}' <= c <= '\U{2029}'
    || c == '\U{202F}' || c == '\U{205F}' || c == '\U{3000}'
  }

  /** Python's `strip`. */
  function Strip(s: string): string {
    if s == "" then ""
    else if IsSpace(s[0]) then Strip(s[1..])
    else if IsSpace(s[|s| - 1]) then Strip(s[..|s| - 1])
    else s
  }

  /** Nothing is stripped from a text without white space. */
  lemma {:induction false} StripFree(s: string)
    requires forall c <- s :: !IsSpace(c)
    ensures Strip(s) == s
  {
    if s != "" {
      assert s[0] in s && s[|s| - 1] in s;
    }
  }

  // ---- Patterns ----

  /** What follows the literal `lit` at the start of `s`. */
  function AfterLiteral(s: string, lit: string): Option<string> {
    if |s| >= |lit| && s[..|lit|] == lit then Some(s[|lit|..]) else None
  }

  /** The length of the longest prefix of `s` whose characters satisfy `p`. */
  function SpanLength(s: string, p: char -> bool): (n: nat)
    ensures n <= |s|
  {
    if s != "" && p(s[0]) then 1 + SpanLength(s[1..], p) else 0
  }

  lemma {:induction false} SpanExactly(a: string, b: string, p: char -> bool)
    requires forall c <- a :: p(c)
    requires b == "" || !p(b[0])
    ensures SpanLength(a + b, p) == |a|
  {
    if a == "" {
      assert a + b == b;
    } else {
      assert a[0] in a;
      assert (a + b)[1..] == a[1..] + b;
      SpanExactly(a[1..], b, p);
    }
  }

  // ---- Words ----

  predicate IsInk(c: char) {
    !IsSpace(c)
  }

  predicate IsWord(w: string) {
    w != "" && forall c <- w :: IsInk(c)
  }

  /** Python's `split()`: the words between white space. */
  function Words(s: string): (ws: seq<string>)
    ensures forall w <- ws :: IsWord(w)
  {
    if s == "" then []
    else if IsSpace(s[0]) then Words(s[1..])
    else
      var n := SpanLength(s, IsInk);
      SpanHolds(s, IsInk);
      [s[..n]] + Words(s[n..])
  }

  lemma {:induction false} SpanHolds(s: string, p: char -> bool)
    ensures forall c <- s[..SpanLength(s, p)] :: p(c)
    ensures s != "" && p(s[0]) ==> SpanLength(s, p) > 0
  {
    if s != "" && p(s[0]) {
      SpanHolds(s[1..], p);
      assert s[..SpanLength(s, p)] == [s[0]] + s[1..][..SpanLength(s[1..], p)];
    }
  }

  lemma FirstWord(w: string, rest: string)
    requires IsWord(w) && (rest == "" || IsSpace(rest[0]))
    ensures Words(w + rest) == [w] + Words(rest)
  {
    SpanExactly(w, rest, IsInk);
    assert w[0] in w;
    assert (w + rest)[..|w|] == w && (w + rest)[|w|..] == rest;
  }

  /** Words joined by spaces are read back. */
  lemma {:induction false} WordsOfJoin(ws: seq<string>)
    requires forall w <- ws :: IsWord(w)
    ensures Words(Join(ws, ' ')) == ws
  {
    if ws == [] {
    } else if |ws| == 1 {
      assert ws[0] + "" == ws[0];
      FirstWord(ws[0], "");
    } else {
      var rest := [' '] + Join(ws[1..], ' ');
      WordsOfJoin(ws[1..]);
      FirstWord(ws[0], rest);
      assert rest[1..] == Join(ws[1..], ' ');
      assert Join(ws, ' ') == ws[0] + rest;
    }
  }
}
