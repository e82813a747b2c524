/** What Go's `strings` package gives the route parser: fields, joining, splitting, searching; and decimal numbers. */
module Text {
  import opened Options

  /** Go's unicode.IsSpace. */
  predicate Blank(c: char) {
    var x := c as int;
    (9 <= x <= 13) || x == 32 || x == 0x85 || x == 0xA0 || x == 0x1680 || (0x2000 <= x <= 0x200A)
    || x == 0x2028 || x == 0x2029 || x == 0x202F || x == 0x205F || x == 0x3000
  }

  predicate NoBlank(s: string) { forall i | 0 <= i < |s| :: !Blank(s[i]) }

  function WordLen(s: string): (n: nat)
    ensures n <= |s| && NoBlank(s[..n]) && (n < |s| ==> Blank(s[n]))
  {
    if s == [] || Blank(s[0]) then 0 else 1 + WordLen(s[1..])
  }

  function Fields(s: string): seq<string>
    decreases |s|
  {
    if s == [] then []
    else if Blank(s[0]) then Fields(s[1..])
    else [s[..WordLen(s)]] + Fields(s[WordLen(s)..])
  }

  function Join(ws: seq<string>, sep: string): string {
    if ws == [] then "" else if |ws| == 1 then ws[0] else ws[0] + sep + Join(ws[1..], sep)
  }

  /** Whether `k` stands in `s` at `i`. */
  predicate At(s: string, k: string, i: nat) { i + |k| <= |s| && s[i..i + |k|] == k }

  ghost predicate Has(s: string, k: string) { exists i: nat :: At(s, k, i) }

  /** The first place of `k` in `s`. */
  function Index(s: string, k: string): (r: Option<nat>)
    ensures r.Some? ==> At(s, k, r.value) && forall i: nat | i < r.value :: !At(s, k, i)
    ensures r == None ==> !Has(s, k)
  {
    if At(s, k, 0) then Some(0)
    else if s == [] then NotInEmpty(s, k); None
    else
      var r := Index(s[1..], k);
      Shifted(s, k);
      if r == None then None else Some(r.value + 1)
  }

  lemma NotInEmpty(s: string, k: string)
    requires s == [] && !At(s, k, 0)
    ensures !Has(s, k)
  {
  }

  lemma Shifted(s: string, k: string)
    requires s != []
    ensures forall i: nat | i > 0 :: At(s, k, i) <==> At(s[1..], k, i - 1)
    ensures !At(s, k, 0) && !Has(s[1..], k) ==> !Has(s, k)
  {
    forall i: nat | i > 0 ensures At(s, k, i) <==> At(s[1..], k, i - 1) {
      if i + |k| <= |s| { SameWindow(s, i - 1, |k|); }
    }
  }

  lemma SameWindow(s: string, i: nat, n: nat)
    requires i + 1 + n <= |s|
    ensures s[i + 1..i + 1 + n] == s[1..][i..i + n]
  {
    var t, u := s[i + 1..i + 1 + n], s[1..][i..i + n];
    assert forall j | 0 <= j < n :: t[j] == u[j];
  }

  function Split(s: string, k: string): seq<string>
    requires k != []
    decreases |s|
  {
    var i := Index(s, k);
    if i == None then [s] else [s[..i.value]] + Split(s[i.value + |k|..], k)
  }

  // ----- fields

  /** A word that stands alone: not empty, without blanks. */
  ghost predicate Word(w: string) { w != [] && NoBlank(w) }

  lemma {:induction false} WordLenOf(w: string, s: string)
    requires NoBlank(w) && (s == [] || Blank(s[0]))
    ensures WordLen(w + s) == |w|
  {
    if w == [] {
      assert w + s == s;
    } else {
      WordLenOf(w[1..], s);
      assert (w + s)[1..] == w[1..] + s;
    }
  }

  lemma {:induction false} FieldsAppend(a: string, s: string)
    requires s == [] || Blank(s[0])
    ensures Fields(a + s) == Fields(a) + Fields(s)
    decreases |a|
  {
    if a == [] {
      assert a + s == s;
    } else if Blank(a[0]) {
      FieldsAppend(a[1..], s);
      assert (a + s)[1..] == a[1..] + s;
    } else {
      var n := WordLen(a);
      FieldsAppend(a[n..], s);
      FirstWord(a, s, n);
      assert [a[..n]] + (Fields(a[n..]) + Fields(s)) == [a[..n]] + Fields(a[n..]) + Fields(s);
    }
  }

  /** A text that starts with a word, with something after it: the same word comes first. */
  lemma FirstWord(a: string, s: string, n: nat)
    requires a != [] && !Blank(a[0]) && n == WordLen(a) && (s == [] || Blank(s[0]))
    ensures Fields(a + s) == [a[..n]] + Fields(a[n..] + s)
  {
    Halves(a, s, n);
    WordLenOf(a[..n], a[n..] + s);
  }

  lemma Halves(a: string, s: string, n: nat)
    requires n <= |a|
    ensures a + s == a[..n] + (a[n..] + s)
    ensures (a + s)[n..] == a[n..] + s && (a + s)[..n] == a[..n]
  {
    assert a == a[..n] + a[n..];
  }

  lemma FieldsOfWord(w: string)
    requires Word(w)
    ensures Fields(w) == [w]
  {
    WordLenOf(w, []);
    assert w + [] == w;
    assert w[|w|..] == [];
  }

  lemma FieldsBlank(c: char, s: string)
    requires Blank(c)
    ensures Fields([c] + s) == Fields(s)
  {
    assert ([c] + s)[1..] == s;
  }

  /** Fields undoes joining with a blank. */
  lemma {:induction false} FieldsOfJoin(ws: seq<string>)
    requires forall w | w in ws :: Word(w)
    ensures Fields(Join(ws, " ")) == ws
  {
    if ws != [] {
      FieldsOfWord(ws[0]);
      if |ws| > 1 {
        var rest := Join(ws[1..], " ");
        FieldsOfJoin(ws[1..]);
        FieldsAppend(ws[0], " " + rest);
        FieldsBlank(' ', rest);
        assert ws[0] + " " + rest == ws[0] + (" " + rest);
      }
    }
  }

  lemma {:induction false} JoinAppend(a: seq<string>, b: seq<string>)
    requires a != [] && b != []
    ensures Join(a + b, " ") == Join(a, " ") + " " + Join(b, " ")
  {
    if |a| == 1 {
      assert (a + b)[1..] == b;
    } else {
      JoinAppend(a[1..], b);
      assert (a + b)[1..] == a[1..] + b;
      assert (a + b)[0] == a[0];
    }
  }

  // ----- searching

  lemma NotOnBlank(s: string, k: string, i: nat, j: nat)
    requires NoBlank(k) && i <= j < i + |k| && j < |s| && Blank(s[j])
    ensures !At(s, k, i)
  {
    if i + |k| <= |s| { assert s[i..i + |k|][j - i] == s[j]; }
  }

  lemma Window(p: string, b: string, j: nat, n: nat)
    requires j + n <= |b|
    ensures (p + b)[|p| + j..|p| + j + n] == b[j..j + n]
  {
    var t, u := (p + b)[|p| + j..|p| + j + n], b[j..j + n];
    assert forall x | 0 <= x < n :: t[x] == u[x];
  }

  /** A key without blanks does not straddle one. */
  lemma NotAcross(a: string, b: string, k: string)
    requires NoBlank(k) && k != [] && !Has(a, k) && !Has(b, k)
    ensures !Has(a + " " + b, k)
  {
    var s := a + " " + b;
    forall i: nat ensures !At(s, k, i) {
      if i + |k| <= |a| {
        assert s[i..i + |k|] == a[i..i + |k|];
        assert !At(a, k, i);
      } else if i <= |a| {
        NotOnBlank(s, k, i, |a|);
      } else if i + |k| <= |s| {
        Window(a + " ", b, i - |a| - 1, |k|);
        assert !At(b, k, i - |a| - 1);
      }
    }
  }

  lemma {:induction false} NotInJoin(ws: seq<string>, k: string)
    requires NoBlank(k) && k != [] && forall w | w in ws :: !Has(w, k)
    ensures !Has(Join(ws, " "), k)
  {
    if |ws| > 1 {
      NotInJoin(ws[1..], k);
      NotAcross(ws[0], Join(ws[1..], " "), k);
    }
  }

  /** Splitting at the first key: what comes before it has none and ends in a blank. */
  lemma SplitAtKey(a: string, k: string, rest: string)
    requires NoBlank(k) && k != [] && !Has(a, k)
    ensures Split(a + " " + k + rest, k) == [a + " "] + Split(rest, k)
  {
    var s := a + " " + k + rest;
    var n := |a| + 1;
    forall i: nat | i < n ensures !At(s, k, i) {
      if i + |k| <= |a| {
        assert s[i..i + |k|] == a[i..i + |k|];
        assert !At(a, k, i);
      } else {
        NotOnBlank(s, k, i, |a|);
      }
    }
    assert s[n..n + |k|] == k;
    assert At(s, k, n);
    var r := Index(s, k);
    assert Has(s, k);
    assert r == Some(n);
    assert s[..n] == a + " ";
    assert s[n + |k|..] == rest;
  }

  // ----- numbers

  function Digit(d: nat): char
    requires d < 10
  {
    ('0' as int + d) as char
  }

  function Decimal(n: nat): string {
    if n < 10 then [Digit(n)] else Decimal(n / 10) + [Digit(n % 10)]
  }

  /** The number that a text of decimal digits stands for. */
  function Numeral(s: string): int
    decreases |s|
  {
    if s == [] then 0 else 10 * Numeral(s[..|s| - 1]) + (s[|s| - 1] as int - '0' as int)
  }

  /** The decimal form of a number stands for it, and has no leading zero. */
  lemma {:induction false} DecimalStandsFor(n: nat)
    ensures Numeral(Decimal(n)) == n && Decimal(n) != [] && (n > 0 ==> Decimal(n)[0] != '0')
  {
    if n < 10 {
      assert [Digit(n)][..0] == [];
    } else {
      DecimalStandsFor(n / 10);
      assert Decimal(n)[..|Decimal(n)| - 1] == Decimal(n / 10);
    }
  }

  predicate Digits(s: string) { forall i | 0 <= i < |s| :: '0' <= s[i] <= '9' }

  lemma {:induction false} DecimalIsDigits(n: nat)
    ensures Digits(Decimal(n)) && Decimal(n) != []
  {
    if n >= 10 { DecimalIsDigits(n / 10); }
  }
}
