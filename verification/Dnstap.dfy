/** The wire format that `internal/dnstap/protobuf.go` reads: varints, fields, and the encoder they come from. */
module Dnstap {
  import opened Options

  newtype byte = x: int | 0 <= x < 256

  const MAX_VARINT_LEN := 10
  const TWO_64 := 0x1_0000_0000_0000_0000

  // ----- varints

  datatype Lido = Lido(valor: nat, n: nat)

  /** Go's binary.Uvarint from byte `i` on: seven bits a byte, lowest first; nothing when cut short or over 64 bits. */
  function UvarintAt(b: seq<byte>, i: nat): (r: Option<Lido>)
    ensures r.Some? ==> 0 < r.value.n <= |b|
    decreases |b|
  {
    if b == [] || i >= MAX_VARINT_LEN then None
    else if b[0] < 128 then (if i == MAX_VARINT_LEN - 1 && b[0] > 1 then None else Some(Lido(b[0] as int, 1)))
    else
      var r := UvarintAt(b[1..], i + 1);
      if r == None then None else Some(Lido(b[0] as int - 128 + 128 * r.value.valor, r.value.n + 1))
  }

  function Uvarint(b: seq<byte>): Option<Lido> { UvarintAt(b, 0) }

  /** The values that fit from byte `i` on. */
  function Limit(i: nat): nat
    decreases MAX_VARINT_LEN - i
  {
    if i >= MAX_VARINT_LEN then 0 else if i == MAX_VARINT_LEN - 1 then 2 else 128 * Limit(i + 1)
  }

  lemma SixtyFourBits()
    ensures Limit(0) == TWO_64
  {
    assert Limit(8) == 256;
    assert Limit(6) == 0x40_0000;
    assert Limit(4) == 0x10_0000_0000;
    assert Limit(2) == 0x4_0000_0000_0000;
  }

  function PutUvarint(x: nat): (b: seq<byte>)
    ensures b != []
  {
    if x < 128 then [x as byte] else [(x % 128 + 128) as byte] + PutUvarint(x / 128)
  }

  lemma {:induction false} UvarintUndoesPut(x: nat, rest: seq<byte>, i: nat)
    requires x < Limit(i)
    ensures UvarintAt(PutUvarint(x) + rest, i) == Some(Lido(x, |PutUvarint(x)|))
    decreases x
  {
    if x >= 128 {
      UvarintUndoesPut(x / 128, rest, i + 1);
      assert (PutUvarint(x) + rest)[1..] == PutUvarint(x / 128) + rest;
    }
  }

  /** A varint fits in 64 bits. */
  lemma {:induction false} UvarintFits(b: seq<byte>, i: nat)
    ensures UvarintAt(b, i).Some? ==> UvarintAt(b, i).value.valor < Limit(i)
    decreases |b|
  {
    if b != [] && i < MAX_VARINT_LEN {
      UvarintFits(b[1..], i + 1);
      LimitIsLarge(i);
    }
  }

  lemma {:induction false} LimitIsLarge(i: nat)
    requires i < MAX_VARINT_LEN
    ensures Limit(i) >= 2 && (i < MAX_VARINT_LEN - 1 ==> Limit(i) >= 128)
    decreases MAX_VARINT_LEN - i
  {
    if i < MAX_VARINT_LEN - 1 { LimitIsLarge(i + 1); }
  }

  function Pow128(n: nat): nat { if n == 0 then 1 else 128 * Pow128(n - 1) }

  /** Seven bits, shifted to their place. */
  function Peso(i: nat, d: nat): nat {
    PesoIsNat(Pow128(i), d);
    Pow128(i) * d
  }

  lemma PesoIsNat(p: nat, d: nat)
    ensures p * d >= 0
  {
  }

  /** What the rest of a varint adds to `x`, the value of the `i` bytes before. */
  function Shifted(r: Option<Lido>, x: nat, i: nat): Option<Lido> {
    if r == None then None else Some(Lido(x + Peso(i, r.value.valor), i + r.value.n))
  }

  lemma ShiftStep(b: seq<byte>, x: nat, i: nat)
    requires b != [] && i < MAX_VARINT_LEN && b[0] >= 128
    ensures Shifted(UvarintAt(b, i), x, i)
         == Shifted(UvarintAt(b[1..], i + 1), x + Peso(i, b[0] as int - 128), i + 1)
  {
    var r := UvarintAt(b[1..], i + 1);
    if r.Some? { Distribute(Pow128(i), b[0] as int - 128, r.value.valor); }
  }

  lemma ShiftLast(b: seq<byte>, x: nat, i: nat)
    requires b == [] || i >= MAX_VARINT_LEN || b[0] < 128
    ensures Shifted(UvarintAt(b, i), x, i)
         == if b == [] || i >= MAX_VARINT_LEN || (i == MAX_VARINT_LEN - 1 && b[0] > 1) then None
            else Some(Lido(x + Peso(i, b[0] as int), i + 1))
  {
  }

  lemma Distribute(p: nat, d: nat, v: nat)
    ensures p * (d + 128 * v) == p * d + 128 * p * v
  {
  }

  method ReadUvarint(b: seq<byte>) returns (r: Option<Lido>)
    ensures r == Uvarint(b)
  {
    var x: nat, i: nat := 0, 0;
    assert b[0..] == b;
    while i < |b|
      invariant i <= |b| && i <= MAX_VARINT_LEN
      invariant Shifted(UvarintAt(b[i..], i), x, i) == Uvarint(b)
    {
      if i == MAX_VARINT_LEN || (i == MAX_VARINT_LEN - 1 && 1 < b[i] < 128) {
        ShiftLast(b[i..], x, i);
        return None;
      }
      if b[i] < 128 {
        ShiftLast(b[i..], x, i);
        return Some(Lido(x + Peso(i, b[i] as int), i + 1));
      }
      ShiftNext(b, x, i);
      x := x + Peso(i, b[i] as int - 128);
      i := i + 1;
    }
    return None;
  }

  lemma ShiftNext(b: seq<byte>, x: nat, i: nat)
    requires i < |b| && i < MAX_VARINT_LEN && b[i] >= 128
    ensures Shifted(UvarintAt(b[i..], i), x, i)
         == Shifted(UvarintAt(b[i + 1..], i + 1), x + Peso(i, b[i] as int - 128), i + 1)
  {
    ShiftStep(b[i..], x, i);
    assert b[i..][1..] == b[i + 1..];
  }

  // ----- fields

  datatype Motivo =
    | ChaveInvalida | VarintInvalida | Truncado64 | ComprimentoInvalido | BytesTruncados | Truncado32
    | TipoDesconhecido

  datatype Resultado<T> = Erro(motivo: Motivo) | Ok(valor: T)

  datatype Campo =
    | Varint(num: nat, v: nat)
    | Fixo64(num: nat, bits: seq<byte>)
    | Bytes(num: nat, bs: seq<byte>)
    | Fixo32(num: nat, bits: seq<byte>)

  /** One field at the front of a message, and what follows it. */
  datatype Frente = Frente(campo: Campo, resto: seq<byte>)

  function Cortado(num: nat, tipo: nat, b: seq<byte>): (r: Resultado<Frente>)
    ensures r.Ok? ==> |r.valor.resto| <= |b|
  {
    match tipo
    case 0 =>
      var v := Uvarint(b);
      if v == None then Erro(VarintInvalida) else Ok(Frente(Varint(num, v.value.valor), b[v.value.n..]))
    case 1 =>
      if |b| < 8 then Erro(Truncado64) else Ok(Frente(Fixo64(num, b[..8]), b[8..]))
    case 2 =>
      var t := Uvarint(b);
      if t == None then Erro(ComprimentoInvalido)
      else
        var c := b[t.value.n..];
        if t.value.valor > |c| then Erro(BytesTruncados)
        else Ok(Frente(Bytes(num, c[..t.value.valor]), c[t.value.valor..]))
    case 5 =>
      if |b| < 4 then Erro(Truncado32) else Ok(Frente(Fixo32(num, b[..4]), b[4..]))
    case _ => Erro(TipoDesconhecido)
  }

  function Primeiro(b: seq<byte>): (r: Resultado<Frente>)
    ensures r.Ok? ==> |r.valor.resto| < |b|
  {
    var k := Uvarint(b);
    if k == None then Erro(ChaveInvalida)
    else Cortado(k.value.valor / 8, k.value.valor % 8, b[k.value.n..])
  }

  /** All the fields of a message. */
  function Campos(b: seq<byte>): Resultado<seq<Campo>>
    decreases |b|
  {
    if b == [] then Ok([])
    else
      match Primeiro(b)
      case Erro(m) => Erro(m)
      case Ok(f) =>
        match Campos(f.resto)
        case Erro(m) => Erro(m)
        case Ok(cs) => Ok([f.campo] + cs)
  }

  // ----- the encoder

  function Chave(num: nat, tipo: nat): seq<byte> { PutUvarint(8 * num + tipo) }

  function Codificado(c: Campo): seq<byte> {
    match c
    case Varint(num, v) => Chave(num, 0) + PutUvarint(v)
    case Fixo64(num, bits) => Chave(num, 1) + bits
    case Bytes(num, bs) => Chave(num, 2) + PutUvarint(|bs|) + bs
    case Fixo32(num, bits) => Chave(num, 5) + bits
  }

  function Codificados(cs: seq<Campo>): seq<byte> {
    if cs == [] then [] else Codificado(cs[0]) + Codificados(cs[1..])
  }

  /** What the format can carry: 64-bit keys, values and lengths. */
  predicate Valido(c: Campo) {
    && 8 * c.num + 7 < TWO_64
    && match c
       case Varint(_, v) => v < TWO_64
       case Fixo64(_, bits) => |bits| == 8
       case Bytes(_, bs) => |bs| < TWO_64
       case Fixo32(_, bits) => |bits| == 4
  }

  lemma VarintFirst(x: nat, rest: seq<byte>)
    requires x < TWO_64
    ensures Uvarint(PutUvarint(x) + rest) == Some(Lido(x, |PutUvarint(x)|))
    ensures (PutUvarint(x) + rest)[|PutUvarint(x)|..] == rest
  {
    SixtyFourBits();
    UvarintUndoesPut(x, rest, 0);
  }

  lemma ChaveFirst(num: nat, tipo: nat, rest: seq<byte>)
    requires 8 * num + 7 < TWO_64 && tipo < 8
    ensures Primeiro(Chave(num, tipo) + rest) == Cortado(num, tipo, rest)
  {
    VarintFirst(8 * num + tipo, rest);
    KeyParts(num, tipo);
  }

  lemma KeyParts(num: nat, tipo: nat)
    requires tipo < 8
    ensures (8 * num + tipo) / 8 == num && (8 * num + tipo) % 8 == tipo
  {
  }

  /** One encoded field reads back, whatever follows it. */
  lemma FieldRoundTrip(c: Campo, rest: seq<byte>)
    requires Valido(c)
    ensures Primeiro(Codificado(c) + rest) == Ok(Frente(c, rest))
  {
    match c
    case Varint(num, v) => NumberRoundTrip(c, rest);
    case Fixo64(num, bits) => FixedRoundTrip(c, 1, rest);
    case Bytes(num, bs) => BytesRoundTrip(c, rest);
    case Fixo32(num, bits) => FixedRoundTrip(c, 5, rest);
  }

  lemma Assoc(a: seq<byte>, b: seq<byte>, c: seq<byte>)
    ensures (a + b) + c == a + (b + c)
  {
  }

  lemma NumberRoundTrip(c: Campo, rest: seq<byte>)
    requires Valido(c) && c.Varint?
    ensures Primeiro(Codificado(c) + rest) == Ok(Frente(c, rest))
  {
    Assoc(Chave(c.num, 0), PutUvarint(c.v), rest);
    ChaveFirst(c.num, 0, PutUvarint(c.v) + rest);
    VarintFirst(c.v, rest);
  }

  lemma FixedRoundTrip(c: Campo, tipo: nat, rest: seq<byte>)
    requires Valido(c) && ((c.Fixo64? && tipo == 1) || (c.Fixo32? && tipo == 5))
    ensures Primeiro(Codificado(c) + rest) == Ok(Frente(c, rest))
  {
    Assoc(Chave(c.num, tipo), c.bits, rest);
    ChaveFirst(c.num, tipo, c.bits + rest);
  }

  lemma BytesRoundTrip(c: Campo, rest: seq<byte>)
    requires Valido(c) && c.Bytes?
    ensures Primeiro(Codificado(c) + rest) == Ok(Frente(c, rest))
  {
    var tail := c.bs + rest;
    Assoc(Chave(c.num, 2), PutUvarint(|c.bs|), c.bs);
    Assoc(Chave(c.num, 2), PutUvarint(|c.bs|) + c.bs, rest);
    Assoc(PutUvarint(|c.bs|), c.bs, rest);
    ChaveFirst(c.num, 2, PutUvarint(|c.bs|) + tail);
    VarintFirst(|c.bs|, tail);
    assert tail[..|c.bs|] == c.bs && tail[|c.bs|..] == rest;
  }

  lemma CamposStep(b: seq<byte>, f: Frente)
    requires Primeiro(b) == Ok(f) && Campos(f.resto).Ok?
    ensures Campos(b) == Ok([f.campo] + Campos(f.resto).valor)
  {
  }

  /** Any list of fields reads back from its encoding. */
  lemma {:induction false} MessageRoundTrip(cs: seq<Campo>)
    requires forall c | c in cs :: Valido(c)
    ensures Campos(Codificados(cs)) == Ok(cs)
  {
    if cs != [] {
      FieldRoundTrip(cs[0], Codificados(cs[1..]));
      MessageRoundTrip(cs[1..]);
      CamposStep(Codificados(cs), Frente(cs[0], Codificados(cs[1..])));
      assert cs == [cs[0]] + cs[1..];
    }
  }
}
