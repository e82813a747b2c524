/** CasarEm: a listed domain covers a name at a label boundary only, and the most specific one wins. */
module NameMatching {
  import opened Options
  import opened DomTargets

  /** `nome[i..]` starts at a label. */
  predicate Rotulo(nome: string, i: nat) { i < |nome| && (i == 0 || nome[i - 1] == '.') }

  /** The listed suffix that starts earliest, that is, the longest one. */
  ghost predicate MaisEspecifico(alvos: Alvos, nome: string, i: nat) {
    Rotulo(nome, i) && nome[i..] in alvos && forall j | 0 <= j < i && Rotulo(nome, j) :: nome[j..] !in alvos
  }

  lemma {:induction false} NextLabel(nome: string)
    requires nome != []
    ensures var n := AposPonto(nome);
            (n < |nome| ==> nome[n - 1] == '.') && forall j | 0 < j < n :: !Rotulo(nome, j)
    decreases |nome|
  {
    if nome[0] != '.' && nome[1..] != [] {
      NextLabel(nome[1..]);
      var n := AposPonto(nome[1..]);
      forall j | 0 < j < n + 1 ensures !Rotulo(nome, j) {
        if j > 1 { assert !Rotulo(nome[1..], j - 1); }
      }
    }
  }

  /** When the whole name is not listed, its best suffix is the best suffix after the first dot. */
  lemma SuffixAfterDot(alvos: Alvos, nome: string, n: nat, i: nat)
    requires nome !in alvos && 0 < n <= |nome| && (n < |nome| ==> nome[n - 1] == '.')
    requires forall j | 0 < j < n :: !Rotulo(nome, j)
    ensures MaisEspecifico(alvos, nome, n + i) <==> MaisEspecifico(alvos, nome[n..], i)
    ensures n + i <= |nome| ==> nome[n + i..] == nome[n..][i..]
  {
    var resto := nome[n..];
    forall j: nat ensures Rotulo(resto, j) <==> Rotulo(nome, n + j) {}
    forall j: nat | n + j <= |nome| ensures nome[n + j..] == resto[j..] {}
    assert nome[0..] == nome;
    if MaisEspecifico(alvos, resto, i) {
      forall j | 0 <= j < n + i && Rotulo(nome, j) ensures nome[j..] !in alvos {
        if j >= n { assert Rotulo(resto, j - n) && nome[n + (j - n)..] == resto[j - n..]; }
      }
    }
    if MaisEspecifico(alvos, nome, n + i) {
      forall j | 0 <= j < i && Rotulo(resto, j) ensures resto[j..] !in alvos { assert Rotulo(nome, n + j); }
    }
  }

  lemma {:induction false} LongestSuffixWins(alvos: Alvos, nome: string, d: Dominio)
    ensures CasarRotulos(alvos, nome) == Some(d) <==> exists i: nat :: MaisEspecifico(alvos, nome, i) && nome[i..] == d
    decreases |nome|
  {
    if nome != [] {
      assert nome[0..] == nome;
      if nome in alvos {
        assert MaisEspecifico(alvos, nome, 0);
      } else {
        NextLabel(nome);
        var n := AposPonto(nome);
        var resto := nome[n..];
        LongestSuffixWins(alvos, resto, d);
        if i: nat :| MaisEspecifico(alvos, resto, i) && resto[i..] == d {
          SuffixAfterDot(alvos, nome, n, i);
        }
        if i: nat :| MaisEspecifico(alvos, nome, i) && nome[i..] == d {
          SuffixAfterDot(alvos, nome, n, i - n);
        }
      }
    }
  }

  /** Whatever its case, and the blanks and dots around it, a name is matched by the longest listed suffix of labels. */
  lemma MostSpecificWins(alvos: Alvos, nome: string, d: Dominio)
    ensures CasarEm(alvos, nome) == Some(d) <==>
      exists i: nat :: MaisEspecifico(alvos, Normalizado(nome), i) && Normalizado(nome)[i..] == d
  {
    LongestSuffixWins(alvos, Normalizado(nome), d);
  }

  // ----- letters outside ASCII

  predicate Ascii(c: char) { c < '\U{0080}' }

  /** The names of a list are ASCII: NormalizeDomainTarget refuses any other. */
  ghost predicate SoAscii(alvos: Alvos) { forall d, i | d in alvos && 0 <= i < |d| :: Ascii(d[i]) }

  /** They differ at most in letters outside ASCII. */
  ghost predicate Parecidos(u: string, v: string) {
    |u| == |v| && forall i | 0 <= i < |u| :: u[i] == v[i] || (!Ascii(u[i]) && !Ascii(v[i]))
  }

  lemma {:induction false} SameDots(u: string, v: string)
    requires Parecidos(u, v)
    ensures AposPonto(u) == AposPonto(v)
  {
    if u != [] { SameDots(u[1..], v[1..]); }
  }

  lemma {:induction false} SameMatch(alvos: Alvos, u: string, v: string)
    requires SoAscii(alvos) && Parecidos(u, v)
    ensures CasarRotulos(alvos, u) == CasarRotulos(alvos, v)
    decreases |u|
  {
    if u != [] {
      SameDots(u, v);
      if u in alvos || v in alvos {
        assert u == v;
      } else {
        SameMatch(alvos, u[AposPonto(u)..], v[AposPonto(u)..]);
      }
    }
  }

  function Cada(f: char -> char, s: string): string { seq(|s|, i requires 0 <= i < |s| => f(s[i])) }

  /** Any lower case that agrees on what is ASCII, or becomes it, matches every name alike. */
  lemma OnlyAsciiMatters(alvos: Alvos, nome: string, f: char -> char)
    requires SoAscii(alvos)
    requires forall c: char | Ascii(f(c)) || Ascii(Minuscula(c)) :: f(c) == Minuscula(c)
    ensures CasarRotulos(alvos, Cada(f, Aparado(Aparado(nome, Text.Blank), Ponto))) == CasarEm(alvos, nome)
  {
    SameMatch(alvos, Cada(f, Aparado(Aparado(nome, Text.Blank), Ponto)), Normalizado(nome));
  }

  // ----- what is trimmed

  lemma {:induction false} NothingAtTheStart(s: string, p: char -> bool) returns (i: nat)
    ensures i <= |s| && SemInicio(s, p) == s[i..] && forall j | 0 <= j < i :: p(s[j])
    ensures i < |s| ==> !p(s[i])
  {
    i := 0;
    if s != [] && p(s[0]) {
      var k := NothingAtTheStart(s[1..], p);
      i := k + 1;
      assert s[1..][k..] == s[i..];
      forall j | 0 <= j < i ensures p(s[j]) { if j > 0 { assert s[1..][j - 1] == s[j]; } }
    } else {
      assert s[0..] == s;
    }
  }

  lemma {:induction false} NothingAtTheEnd(s: string, p: char -> bool)
    ensures var r := SemFim(s, p); r == [] || !p(r[|r| - 1])
    ensures var r := SemFim(s, p); |r| <= |s| && r == s[..|r|] && forall j | |r| <= j < |s| :: p(s[j])
  {
    if s != [] && p(s[|s| - 1]) { NothingAtTheEnd(s[..|s| - 1], p); }
  }

  /** What is trimmed at both ends is exactly what satisfies `p` there. */
  lemma Trimmed(s: string, p: char -> bool) returns (i: nat, j: nat)
    ensures i <= j <= |s| && Aparado(s, p) == s[i..j]
    ensures (forall k | 0 <= k < i :: p(s[k])) && (forall k | j <= k < |s| :: p(s[k]))
    ensures i < j ==> !p(s[i]) && !p(s[j - 1])
  {
    i := NothingAtTheStart(s, p);
    var r := SemInicio(s, p);
    NothingAtTheEnd(r, p);
    j := i + |SemFim(r, p)|;
    forall k | j <= k < |s| ensures p(s[k]) { assert r[k - i] == s[k]; }
  }

  /** No name that is matched starts or ends in a dot, or has a capital letter. */
  lemma NormalizedNames(nome: string)
    ensures var n := Normalizado(nome);
      && (n != [] ==> n[0] != '.' && n[|n| - 1] != '.')
      && forall i | 0 <= i < |n| :: !('A' <= n[i] <= 'Z')
  {
    var i, j := Trimmed(Aparado(nome, Text.Blank), Ponto);
  }
}
