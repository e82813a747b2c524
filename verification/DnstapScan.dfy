/**
 The field scanner of `internal/dnstap/protobuf.go`, in its 64-bit arithmetic: one iteration
 of its loops, the scan of any bytes, and what a frame answers.
 */
module DnstapScan {
  import opened Options
  import opened Dnstap

  const CAMPO_DNSTAP_MESSAGE := 14
  const CAMPO_MESSAGE_TYPE := 1
  const CAMPO_RESPONSE_MESSAGE := 14
  const TIPO_CLIENT_RESPONSE := 6
  const TIPO_RESOLVER_RESPONSE := 4

  /** Slices are indexed by 63-bit integers. */
  const TWO_63 := 0x8000_0000_0000_0000

  /** What is looked for: a length-delimited field, or a varint, of a number. */
  datatype Busca = PorBytes(numero: nat) | PorVarint(numero: nat)

  predicate Procura(q: Busca, c: Campo) {
    c.num == q.numero && if q.PorBytes? then c.Bytes? else c.Varint?
  }

  /**
   One iteration at a position: a refusal, a field and where the next one starts, or a field
   whose declared length, added to its position, wraps around 2^64 and leads back.
   */
  datatype Passo = Falha(motivo: Motivo) | Leu(campo: Campo, fim: nat) | Volta(num: nat, lido: nat, fim: nat)

  /** The value of a field of wire type `tipo` at position `i`. */
  function Valor(b: seq<byte>, i: nat, num: nat, tipo: nat): (p: Passo)
    requires i <= |b|
    ensures p.Leu? ==> i <= p.fim <= |b|
    ensures p.Volta? ==> p.fim < p.lido <= |b|
  {
    match tipo
    case 0 =>
      var v := Uvarint(b[i..]);
      if v == None then Falha(VarintInvalida) else Leu(Varint(num, v.value.valor), i + v.value.n)
    case 1 =>
      if i + 8 > |b| then Falha(Truncado64) else Leu(Fixo64(num, b[i..i + 8]), i + 8)
    case 2 =>
      var t := Uvarint(b[i..]);
      if t == None then Falha(ComprimentoInvalido)
      else
        var c := i + t.value.n;
        var fim := (c + t.value.valor) % TWO_64;
        if fim > |b| then Falha(BytesTruncados)
        else if fim < c then Volta(num, c, fim)
        else Leu(Bytes(num, b[c..fim]), fim)
    case 5 =>
      if i + 4 > |b| then Falha(Truncado32) else Leu(Fixo32(num, b[i..i + 4]), i + 4)
    case _ => Falha(TipoDesconhecido)
  }

  function Iteracao(b: seq<byte>, i: nat): (p: Passo)
    requires i < |b|
    ensures p.Leu? ==> i < p.fim <= |b|
    ensures p.Volta? ==> p.fim < p.lido <= |b|
  {
    var k := Uvarint(b[i..]);
    if k == None then Falha(ChaveInvalida)
    else Valor(b, i + k.value.n, k.value.valor / 8, k.value.valor % 8)
  }

  /** Where a scan is: at a position, done, or stopped by slicing backwards. */
  datatype Situacao = Em(i: nat) | Pronta(r: Resultado<Option<Campo>>) | Panico

  function AposIteracao(b: seq<byte>, q: Busca, i: nat): Situacao {
    if i >= |b| then Pronta(Ok(None))
    else
      match Iteracao(b, i)
      case Falha(m) => Pronta(Erro(m))
      case Leu(c, fim) => if Procura(q, c) then Pronta(Ok(Some(c))) else Em(fim)
      case Volta(num, _, fim) => if q == PorBytes(num) then Panico else Em(fim)
  }

  /** The scan from `i` after `n` iterations. */
  function Varrida(b: seq<byte>, q: Busca, i: nat, n: nat): Situacao
    decreases n
  {
    if n == 0 then Em(i)
    else
      var s := AposIteracao(b, q, i);
      if s.Em? then Varrida(b, q, s.i, n - 1) else s
  }

  // ----- when the scan only goes forward

  /** The field at `i` declares a length that, added to its position, does not fit in 64 bits. */
  predicate DeclaraAlem(b: seq<byte>, i: nat)
    requires i < |b|
  {
    var k := Uvarint(b[i..]);
    k.Some? && k.value.valor % 8 == 2 &&
    var j := i + k.value.n;
    var t := Uvarint(b[j..]);
    t.Some? && j + t.value.n + t.value.valor >= TWO_64
  }

  /** An iteration leads back exactly when the declared length does not fit; otherwise it passes all that it read. */
  lemma LeadsBackIff(b: seq<byte>, i: nat)
    requires i < |b| < TWO_63
    ensures Iteracao(b, i).Volta? <==> DeclaraAlem(b, i)
  {
    UvarintFits(b[i..], 0);
    SixtyFourBits();
    var k := Uvarint(b[i..]);
    if k.Some? {
      var j := i + k.value.n;
      UvarintFits(b[j..], 0);
      var t := Uvarint(b[j..]);
      if t.Some? { WrapsOnce(j + t.value.n + t.value.valor); }
    }
  }

  lemma WrapsOnce(x: nat)
    requires x < 2 * TWO_64
    ensures x % TWO_64 == if x < TWO_64 then x else x - TWO_64
  {
  }

  /** No field that the scan comes to, before it finds what it looks for or fails, leads back. */
  predicate Avanca(b: seq<byte>, q: Busca, i: nat)
    decreases |b| - i
  {
    i >= |b| ||
    match Iteracao(b, i)
    case Falha(_) => true
    case Leu(c, fim) => Procura(q, c) || Avanca(b, q, fim)
    case Volta(_, _, _) => false
  }

  lemma {:induction false} NeverLeadsBack(b: seq<byte>, q: Busca, i: nat, n: nat)
    requires Avanca(b, q, i)
    ensures var s := Varrida(b, q, i, n); s != Panico && (s.Em? ==> Avanca(b, q, s.i))
    decreases n
  {
    if n > 0 {
      var s := AposIteracao(b, q, i);
      if s.Em? { NeverLeadsBack(b, q, s.i, n - 1); }
    }
  }

  /** A scan that does not advance comes to a field that leads back. */
  lemma {:induction false} ComesToOneThatLeadsBack(b: seq<byte>, q: Busca, i: nat) returns (n: nat)
    requires !Avanca(b, q, i)
    ensures var s := Varrida(b, q, i, n); s.Em? && s.i < |b| && Iteracao(b, s.i).Volta?
    decreases |b| - i
  {
    n := 0;
    if Iteracao(b, i).Leu? {
      n := ComesToOneThatLeadsBack(b, q, Iteracao(b, i).fim);
      n := n + 1;
    }
  }

  /**
   For any bytes: the scan only goes forward if and only if no position it comes to declares a
   length that does not fit.
   */
  lemma ScanAdvancesIff(b: seq<byte>, q: Busca)
    requires |b| < TWO_63
    ensures Avanca(b, q, 0) <==>
      forall n: nat :: var s := Varrida(b, q, 0, n); s.Em? && s.i < |b| ==> !DeclaraAlem(b, s.i)
  {
    if Avanca(b, q, 0) {
      forall n: nat ensures var s := Varrida(b, q, 0, n); s.Em? && s.i < |b| ==> !DeclaraAlem(b, s.i) {
        NeverLeadsBack(b, q, 0, n);
        var s := Varrida(b, q, 0, n);
        if s.Em? && s.i < |b| { LeadsBackIff(b, s.i); }
      }
    } else {
      var n := ComesToOneThatLeadsBack(b, q, 0);
      LeadsBackIff(b, Varrida(b, q, 0, n).i);
    }
  }

  // ----- what such a scan answers

  /** The first field that is looked for, by the format alone. */
  function Varredura(b: seq<byte>, q: Busca): Resultado<Option<Campo>>
    decreases |b|
  {
    if b == [] then Ok(None)
    else
      match Primeiro(b)
      case Erro(m) => Erro(m)
      case Ok(f) => if Procura(q, f.campo) then Ok(Some(f.campo)) else Varredura(f.resto, q)
  }

  /** An iteration that does not lead back reads the field at the front of the rest of the message. */
  lemma IterationReadsTheFirst(b: seq<byte>, i: nat)
    requires i < |b| < TWO_63 && !Iteracao(b, i).Volta?
    ensures match Iteracao(b, i)
      case Falha(m) => Primeiro(b[i..]) == Erro(m)
      case Leu(c, fim) => Primeiro(b[i..]) == Ok(Frente(c, b[fim..]))
      case Volta(_, _, _) => false
  {
    var k := Uvarint(b[i..]);
    if k.Some? {
      Suffix(b, i, k.value.n);
      ValueReadsTheFirst(b, i + k.value.n, k.value.valor / 8, k.value.valor % 8);
    }
  }

  lemma ValueReadsTheFirst(b: seq<byte>, i: nat, num: nat, tipo: nat)
    requires i <= |b| < TWO_63 && !Valor(b, i, num, tipo).Volta?
    ensures match Valor(b, i, num, tipo)
      case Falha(m) => Cortado(num, tipo, b[i..]) == Erro(m)
      case Leu(c, fim) => Cortado(num, tipo, b[i..]) == Ok(Frente(c, b[fim..]))
      case Volta(_, _, _) => false
  {
    match tipo {
      case 0 => if Uvarint(b[i..]).Some? { Suffix(b, i, Uvarint(b[i..]).value.n); }
      case 1 => if i + 8 <= |b| { Suffix(b, i, 8); }
      case 2 => LengthReadsTheFirst(b, i, num);
      case 5 => if i + 4 <= |b| { Suffix(b, i, 4); }
      case _ =>
    }
  }

  lemma LengthReadsTheFirst(b: seq<byte>, i: nat, num: nat)
    requires i <= |b| < TWO_63 && !Valor(b, i, num, 2).Volta?
    ensures match Valor(b, i, num, 2)
      case Falha(m) => Cortado(num, 2, b[i..]) == Erro(m)
      case Leu(c, fim) => Cortado(num, 2, b[i..]) == Ok(Frente(c, b[fim..]))
      case Volta(_, _, _) => false
  {
    var t := Uvarint(b[i..]);
    if t.Some? {
      UvarintFits(b[i..], 0);
      SixtyFourBits();
      WrapsOnce(i + t.value.n + t.value.valor);
      Suffix(b, i, t.value.n);
      var c := i + t.value.n;
      if c + t.value.valor <= |b| { Suffix(b, c, t.value.valor); }
    }
  }

  lemma Suffix(b: seq<byte>, i: nat, n: nat)
    requires i + n <= |b|
    ensures b[i..][n..] == b[i + n..] && b[i..i + n] == b[i..][..n]
  {
  }

  /** What a forward scan from `i` ends with. */
  function Fim(b: seq<byte>, q: Busca, i: nat): Resultado<Option<Campo>>
    decreases |b| - i
  {
    if i >= |b| then Ok(None)
    else
      match Iteracao(b, i)
      case Falha(m) => Erro(m)
      case Leu(c, fim) => if Procura(q, c) then Ok(Some(c)) else Fim(b, q, fim)
      case Volta(_, _, _) => Ok(None)
  }

  lemma {:induction false} ForwardScanEnds(b: seq<byte>, q: Busca, i: nat, n: nat)
    requires i <= |b| && Avanca(b, q, i) && n > |b| - i
    ensures Varrida(b, q, i, n) == Pronta(Fim(b, q, i))
    decreases |b| - i
  {
    var s := AposIteracao(b, q, i);
    if s.Em? { ForwardScanEnds(b, q, s.i, n - 1); }
  }

  lemma {:induction false} EndsAsTheFormatSays(b: seq<byte>, q: Busca, i: nat)
    requires |b| < TWO_63 && i <= |b| && Avanca(b, q, i)
    ensures Fim(b, q, i) == Varredura(b[i..], q)
    decreases |b| - i
  {
    if i < |b| {
      IterationReadsTheFirst(b, i);
      var p := Iteracao(b, i);
      if p.Leu? && !Procura(q, p.campo) { EndsAsTheFormatSays(b, q, p.fim); }
    }
  }

  /** A scan that only goes forward ends, within as many iterations as there are bytes, with what the format says. */
  lemma ForwardScanIsTheFormat(b: seq<byte>, q: Busca, n: nat)
    requires |b| < TWO_63 && Avanca(b, q, 0) && n > |b|
    ensures Varrida(b, q, 0, n) == Pronta(Varredura(b, q))
  {
    ForwardScanEnds(b, q, 0, n);
    EndsAsTheFormatSays(b, q, 0);
    assert b[0..] == b;
  }

  function PrimeiroCampo(cs: seq<Campo>, q: Busca): Option<Campo> {
    if cs == [] then None else if Procura(q, cs[0]) then Some(cs[0]) else PrimeiroCampo(cs[1..], q)
  }

  /** The field found is the first of its number and kind; none is found when there is none. */
  lemma {:induction false} FirstOfItsNumber(cs: seq<Campo>, q: Busca)
    ensures var c := PrimeiroCampo(cs, q);
      if c.None? then forall i | 0 <= i < |cs| :: !DoNumero(cs[i], q)
      else exists k ::
        0 <= k < |cs| && cs[k] == c.value && DoNumero(cs[k], q) && forall i | 0 <= i < k :: !DoNumero(cs[i], q)
  {
    if cs != [] && !Procura(q, cs[0]) {
      FirstOfItsNumber(cs[1..], q);
      if PrimeiroCampo(cs, q).Some? {
        var k :| 0 <= k < |cs| - 1 && cs[1..][k] == PrimeiroCampo(cs, q).value && DoNumero(cs[1..][k], q)
          && forall i | 0 <= i < k :: !DoNumero(cs[1..][i], q);
        assert cs[k + 1] == cs[1..][k];
        forall i | 0 <= i < k + 1 ensures !DoNumero(cs[i], q) { if i > 0 { assert cs[i] == cs[1..][i - 1]; } }
      } else {
        forall i | 0 <= i < |cs| ensures !DoNumero(cs[i], q) { if i > 0 { assert cs[i] == cs[1..][i - 1]; } }
      }
    }
  }

  predicate DoNumero(c: Campo, q: Busca) {
    match q
    case PorBytes(num) => c.Bytes? && c.num == num
    case PorVarint(num) => c.Varint? && c.num == num
  }

  lemma {:induction false} FormatFindsTheFirst(b: seq<byte>, q: Busca)
    requires Campos(b).Ok?
    ensures Varredura(b, q) == Ok(PrimeiroCampo(Campos(b).valor, q))
    decreases |b|
  {
    if b != [] {
      var f := Primeiro(b).valor;
      FormatFindsTheFirst(f.resto, q);
      CamposStep(b, f);
    }
  }

  /** A length that fits in the message fits in 64 bits. */
  lemma WellFormedFieldAdvances(b: seq<byte>, i: nat)
    requires i < |b| < TWO_63 && Primeiro(b[i..]).Ok?
    ensures Iteracao(b, i).Leu?
  {
    LeadsBackIff(b, i);
    var k := Uvarint(b[i..]);
    Suffix(b, i, k.value.n);
    if !Iteracao(b, i).Volta? { IterationReadsTheFirst(b, i); }
  }

  lemma {:induction false} WellFormedAdvances(b: seq<byte>, q: Busca, i: nat)
    requires |b| < TWO_63 && i <= |b| && Campos(b[i..]).Ok?
    ensures Avanca(b, q, i)
    decreases |b| - i
  {
    if i < |b| {
      WellFormedFieldAdvances(b, i);
      IterationReadsTheFirst(b, i);
      WellFormedAdvances(b, q, Iteracao(b, i).fim);
    }
  }

  /** On any well-formed message, however its varints are written, the scan ends with the first field looked for. */
  lemma ScanFindsTheFirst(b: seq<byte>, q: Busca, n: nat)
    requires Campos(b).Ok? && |b| < TWO_63 && n > |b|
    ensures Varrida(b, q, 0, n) == Pronta(Ok(PrimeiroCampo(Campos(b).valor, q)))
  {
    assert b[0..] == b;
    WellFormedAdvances(b, q, 0);
    ForwardScanIsTheFormat(b, q, n);
    FormatFindsTheFirst(b, q);
  }

  /** The scan undoes the encoder. */
  lemma ScanUndoesTheEncoder(cs: seq<Campo>, q: Busca, n: nat)
    requires (forall c | c in cs :: Valido(c)) && |Codificados(cs)| < TWO_63 && n > |Codificados(cs)|
    ensures Varrida(Codificados(cs), q, 0, n) == Pronta(Ok(PrimeiroCampo(cs, q)))
  {
    MessageRoundTrip(cs);
    ScanFindsTheFirst(Codificados(cs), q, n);
  }

  lemma {:induction false} FormatFailsOnlyOnMalformed(b: seq<byte>, q: Busca)
    ensures Varredura(b, q).Erro? ==> Campos(b).Erro? && Campos(b).motivo == Varredura(b, q).motivo
    ensures Campos(b).Erro? && Varredura(b, q).Ok? ==> Varredura(b, q).valor.Some?
    decreases |b|
  {
    if b != [] && Primeiro(b).Ok? { FormatFailsOnlyOnMalformed(Primeiro(b).valor.resto, q); }
  }

  /** A scan that only goes forward fails only on a malformed message, and for the reason that makes it so. */
  lemma ScanFailsOnlyOnMalformed(b: seq<byte>, q: Busca, n: nat)
    requires |b| < TWO_63 && Avanca(b, q, 0) && n > |b|
    ensures Varrida(b, q, 0, n).Pronta?
    ensures Varrida(b, q, 0, n).r.Erro? ==> Campos(b).Erro? && Campos(b).motivo == Varrida(b, q, 0, n).r.motivo
    ensures Campos(b).Erro? && Varrida(b, q, 0, n).r.Ok? ==> Varrida(b, q, 0, n).r.valor.Some?
  {
    ForwardScanIsTheFormat(b, q, n);
    FormatFailsOnlyOnMalformed(b, q);
  }

  // ----- a frame that leads back

  /** A field whose length takes the position back to the start. */
  function Circular(num: nat): seq<byte>
    requires 16 <= 8 * num + 2 < 128
  {
    Chave(num, 2) + PutUvarint(TWO_64 - 11)
  }

  lemma {:induction false} PutLength(x: nat, i: nat)
    requires Pow128(i) <= x < Pow128(i + 1)
    ensures |PutUvarint(x)| == i + 1
  {
    if i > 0 { PutLength(x / 128, i - 1); }
  }

  lemma CircularLeadsBack(num: nat)
    requires 16 <= 8 * num + 2 < 128
    ensures |Circular(num)| == 11 && Iteracao(Circular(num), 0) == Volta(num, 11, 0)
  {
    var b, rest := Circular(num), PutUvarint(TWO_64 - 11);
    assert Pow128(3) == 0x20_0000;
    assert Pow128(6) == 0x400_0000_0000;
    assert Pow128(9) == 0x8000_0000_0000_0000;
    assert Pow128(10) == 128 * Pow128(9);
    PutLength(TWO_64 - 11, 9);
    assert |Chave(num, 2)| == 1;
    assert b[0..] == b && b[1..] == rest;
    VarintFirst(8 * num + 2, rest);
    assert rest + [] == rest;
    VarintFirst(TWO_64 - 11, []);
  }

  /** Looking for another field, the scan is back at the start after every iteration: it never ends. */
  lemma {:induction false} CircularScanNeverEnds(num: nat, q: Busca, n: nat)
    requires 16 <= 8 * num + 2 < 128 && q != PorBytes(num)
    ensures Varrida(Circular(num), q, 0, n) == Em(0)
  {
    CircularLeadsBack(num);
    if n > 0 { CircularScanNeverEnds(num, q, n - 1); }
  }

  /** Looking for that field, it slices backwards. */
  lemma CircularScanSlicesBackwards(num: nat, n: nat)
    requires 16 <= 8 * num + 2 < 128 && n > 0
    ensures Varrida(Circular(num), PorBytes(num), 0, n) == Panico
  {
    CircularLeadsBack(num);
  }

  // ----- the loops

  /** The switch on the wire type, which both loops of the source spell out. */
  method LerValor(b: seq<byte>, start: nat, num: nat, tipoFio: nat) returns (p: Passo)
    requires start <= |b|
    ensures p == Valor(b, start, num, tipoFio)
  {
    var i := start;
    match tipoFio {
      case 0 =>
        var v := ReadUvarint(b[i..]);
        if v == None { return Falha(VarintInvalida); }
        return Leu(Varint(num, v.value.valor), i + v.value.n);
      case 1 =>
        if i + 8 > |b| { return Falha(Truncado64); }
        return Leu(Fixo64(num, b[i..i + 8]), i + 8);
      case 2 =>
        var tam := ReadUvarint(b[i..]);
        if tam == None { return Falha(ComprimentoInvalido); }
        i := i + tam.value.n;
        var fim := (i + tam.value.valor) % TWO_64;
        if fim > |b| { return Falha(BytesTruncados); }
        if fim < i { return Volta(num, i, fim); }
        return Leu(Bytes(num, b[i..fim]), fim);
      case 5 =>
        if i + 4 > |b| { return Falha(Truncado32); }
        return Leu(Fixo32(num, b[i..i + 4]), i + 4);
      case _ => return Falha(TipoDesconhecido);
    }
  }

  method LerCampo(b: seq<byte>, i: nat) returns (p: Passo)
    requires i < |b|
    ensures p == Iteracao(b, i)
  {
    var chave := ReadUvarint(b[i..]);
    if chave == None { return Falha(ChaveInvalida); }
    p := LerValor(b, i + chave.value.n, chave.value.valor / 8, chave.value.valor % 8);
  }

  /** The body of the loop. */
  method Iterar(b: seq<byte>, q: Busca, i: nat) returns (s: Situacao)
    ensures s == AposIteracao(b, q, i)
  {
    if i >= |b| { return Pronta(Ok(None)); }
    var p := LerCampo(b, i);
    match p {
      case Falha(m) => return Pronta(Erro(m));
      case Leu(c, fim) => return if Procura(q, c) then Pronta(Ok(Some(c))) else Em(fim);
      case Volta(num, _, fim) => return if q == PorBytes(num) then Panico else Em(fim);
    }
  }

  lemma ScanStep(b: seq<byte>, q: Busca, i: nat, n: nat)
    requires n > 0
    ensures var s := AposIteracao(b, q, i);
      Varrida(b, q, i, n) == if s.Em? then Varrida(b, q, s.i, n - 1) else s
  {
  }

  /** At most `n` iterations of the loop. */
  method Varrer(b: seq<byte>, q: Busca, n: nat) returns (s: Situacao)
    ensures s == Varrida(b, q, 0, n)
  {
    s := Em(0);
    for k := 0 to n
      invariant s.Em? && Varrida(b, q, s.i, n - k) == Varrida(b, q, 0, n)
    {
      ScanStep(b, q, s.i, n - k);
      s := Iterar(b, q, s.i);
      if !s.Em? { return; }
    }
  }

  // ----- the answer of a frame

  predicate EhResposta(tipo: Option<Campo>) {
    tipo.Some? && tipo.value.Varint? &&
    (tipo.value.v == TIPO_CLIENT_RESPONSE || tipo.value.v == TIPO_RESOLVER_RESPONSE)
  }

  /** Of the type and of the response in the embedded message. */
  function RespostaDe(msg: seq<byte>, n: nat): Situacao {
    var tipo := Varrida(msg, PorVarint(CAMPO_MESSAGE_TYPE), 0, n);
    if !tipo.Pronta? || tipo.r.Erro? then tipo
    else if EhResposta(tipo.r.valor) then Varrida(msg, PorBytes(CAMPO_RESPONSE_MESSAGE), 0, n)
    else Pronta(Ok(None))
  }

  function Resposta(quadro: seq<byte>, n: nat): Situacao {
    var msg := Varrida(quadro, PorBytes(CAMPO_DNSTAP_MESSAGE), 0, n);
    if msg.Pronta? && msg.r.Ok? && msg.r.valor.Some? && msg.r.valor.value.Bytes?
    then RespostaDe(msg.r.valor.value.bs, n)
    else msg
  }

  method RespostaDNS(quadro: seq<byte>, n: nat) returns (s: Situacao)
    ensures s == Resposta(quadro, n)
  {
    var msg := Varrer(quadro, PorBytes(CAMPO_DNSTAP_MESSAGE), n);
    if !msg.Pronta? || msg.r.Erro? || msg.r.valor == None || !msg.r.valor.value.Bytes? { return msg; }
    var bs := msg.r.valor.value.bs;
    var tipo := Varrer(bs, PorVarint(CAMPO_MESSAGE_TYPE), n);
    if !tipo.Pronta? || tipo.r.Erro? { return tipo; }
    if !EhResposta(tipo.r.valor) { return Pronta(Ok(None)); }
    s := Varrer(bs, PorBytes(CAMPO_RESPONSE_MESSAGE), n);
  }

  lemma {:induction false} FieldFits(cs: seq<Campo>, q: Busca)
    ensures var c := PrimeiroCampo(cs, q); c.Some? && c.value.Bytes? ==> |c.value.bs| <= |Codificados(cs)|
  {
    if cs != [] && !Procura(q, cs[0]) { FieldFits(cs[1..], q); }
  }

  lemma ResponseTypes(ms: seq<Campo>)
    ensures var tipo := PrimeiroCampo(ms, PorVarint(1));
      EhResposta(tipo) <==> tipo == Some(Varint(1, 4)) || tipo == Some(Varint(1, 6))
  {
    FirstOfItsNumber(ms, PorVarint(1));
  }

  /**
   A frame whose field 14 embeds a message yields field 14 of that message exactly when the message's field 1 says
   it is of type 4 or 6, a response from a resolver or to a client; for any other type, or none, it yields nothing.
   */
  lemma ResponsesOnly(fs: seq<Campo>, ms: seq<Campo>, n: nat)
    requires (forall c | c in fs :: Valido(c)) && (forall c | c in ms :: Valido(c))
    requires PrimeiroCampo(fs, PorBytes(14)) == Some(Bytes(14, Codificados(ms)))
    requires |Codificados(fs)| < TWO_63 && n > |Codificados(fs)|
    ensures var tipo := PrimeiroCampo(ms, PorVarint(1));
      Resposta(Codificados(fs), n) ==
        Pronta(Ok(if tipo == Some(Varint(1, 4)) || tipo == Some(Varint(1, 6)) then PrimeiroCampo(ms, PorBytes(14))
                  else None))
  {
    ResponseTypes(ms);
    FieldFits(fs, PorBytes(CAMPO_DNSTAP_MESSAGE));
    ScanUndoesTheEncoder(fs, PorBytes(CAMPO_DNSTAP_MESSAGE), n);
    ScanUndoesTheEncoder(ms, PorVarint(CAMPO_MESSAGE_TYPE), n);
    ScanUndoesTheEncoder(ms, PorBytes(CAMPO_RESPONSE_MESSAGE), n);
  }
}
