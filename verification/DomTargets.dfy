/**
 The domain-target index as values: what one decision of `internal/domtargets/indice.go`
 turns the index and the incoming answer into. The class in Indice.dfy computes these
 functions in place; the lemmas about whole runs are stated on them.
 */
module DomTargets {
  import opened Options
  import opened Order
  import Text

  type Dominio = string

  /** An address: its family, its number, and whether its category may ever become a rule. */
  datatype Addr = Addr(v4: bool, valor: nat, publico: bool)

  predicate Utilizavel(a: Addr) { a.publico }

  /** IPv4 before IPv6, then by number. The category is a function of the number; it only breaks ties here. */
  predicate AddrLess(a: Addr, b: Addr) {
    if a.v4 != b.v4 then a.v4
    else if a.valor != b.valor then a.valor < b.valor
    else !a.publico && b.publico
  }

  lemma AddrTotalOn(s: set<Addr>)
    ensures TotalOn(s, AddrLess)
  {
  }

  datatype Capacidade = Barrar | Direcionar
  datatype Estagio = Ensaio | Ativo
  datatype Alvo = Alvo(capacidade: Capacidade, estagio: Estagio, marca: nat)

  /** One row of the list handed to DefinirAlvos: fields the source cannot read are None. */
  datatype Listado = Listado(dominio: Option<Dominio>, capacidade: Option<Capacidade>,
                             estagio: Option<Estagio>, marca: nat)

  /** Which kernel structure an address is in, and with which WAN mark. */
  datatype Lugar = Lugar(cap: Capacidade, marca: nat)
  datatype Pedido = Pedido(prazo: int, lugar: Lugar)

  /**
   One live address. `escrito` is the source's escrito/escritoCap/escritoMarca: the two
   fields are set only together with the flag, and the flag is never cleared. `pendente` is
   pendente/pendPrazo/pendCap/pendMarca, which are read only under the flag.
   */
  datatype Registro = Registro(dominios: set<Dominio>, expira: int, concedido: int,
                               escrito: Option<Lugar>, duvidoso: bool, pendente: Option<Pedido>)

  datatype Escrita = Escrita(addr: Addr, prazo: int, lugar: Lugar, substituir: bool)
  datatype Remocao = Remocao(addr: Addr, cap: Capacidade)
  datatype Ajuste = Ajuste(escritas: seq<Escrita>, remocoes: seq<Remocao>)
  const VAZIO := Ajuste([], [])

  type Alvos = map<Dominio, Alvo>
  type Ends = map<Addr, Registro>
  type Poco = map<Addr, int>
  type Pocos = map<Dominio, Poco>
  datatype Estado = Estado(alvos: Alvos, ends: Ends, ensaiados: Pocos, protegidos: set<Addr>)

  const SEGUNDO := 1_000_000_000
  const PISO := 600 * SEGUNDO
  const TETO := 3600 * SEGUNDO
  const FOLGA_DE_PODA := 30 * SEGUNDO
  const FRACAO_DE_RENOVACAO := 3
  const MAX_POR_DOMINIO := 64
  const MAX_ENDERECOS := 4096

  function Grampear(d: int): int {
    if d < PISO then PISO else if d > TETO then TETO else d
  }

  /** There is no IPv6 routing map, so a routed IPv6 address has nowhere to go. */
  predicate PodeEntrar(a: Addr, c: Capacidade) { c != Direcionar || a.v4 }

  predicate Aceitavel(protegidos: set<Addr>, a: Addr) { Utilizavel(a) && a !in protegidos }

  predicate EhAtivo(alvos: Alvos, d: Dominio) { d in alvos && alvos[d].estagio == Ativo }

  ghost function Reivindicados(ends: Ends, d: Dominio): set<Addr> {
    set a | a in ends && d in ends[a].dominios
  }

  function PocoDe(pocos: Pocos, d: Dominio): Poco {
    if d in pocos then pocos[d] else map[]
  }

  // ----- the effective capacity of an address

  ghost predicate EhMenor(m: Dominio, s: set<Dominio>) {
    m in s && forall y | y in s && y != m :: StrLess(m, y)
  }

  ghost function Menor(s: set<Dominio>): Dominio {
    if m :| EhMenor(m, s) then m else ""
  }

  function Ativos(alvos: Alvos, dominios: set<Dominio>): set<Dominio> {
    set d | d in dominios && EhAtivo(alvos, d)
  }

  /** Blocking wins over routing; among routing domains the first name gives the mark. */
  ghost function CapEfetiva(alvos: Alvos, dominios: set<Dominio>): Option<Lugar> {
    var ativos := Ativos(alvos, dominios);
    if exists d :: d in ativos && alvos[d].capacidade == Barrar then Some(Lugar(Barrar, 0))
    else if ativos == {} then None
    else
      var m := Menor(ativos);
      Some(Lugar(Direcionar, if m in alvos then alvos[m].marca else 0))
  }

  /** The effective capacity, when the kernel has a structure for it in this family. */
  ghost function Destino(alvos: Alvos, a: Addr, dominios: set<Dominio>): Option<Lugar> {
    var c := CapEfetiva(alvos, dominios);
    if c.Some? && !PodeEntrar(a, c.value.cap) then None else c
  }

  // ----- learning

  /** The index entries together with the adjustment decided so far. */
  datatype Obra = Obra(ends: Ends, aj: Ajuste)

  ghost function Creditado(ends: Ends, d: Dominio, a: Addr): Registro
    requires a in ends
  {
    var r := ends[a];
    if d !in r.dominios && |Reivindicados(ends, d)| < MAX_POR_DOMINIO then r.(dominios := r.dominios + {d}) else r
  }

  /** Renewing is due: less than a third of the granted time is left, or the last write got no answer. */
  predicate Vencendo(r: Registro, agora: int) {
    r.duvidoso || r.expira - agora < r.concedido / FRACAO_DE_RENOVACAO
  }

  ghost function Absorver(alvos: Alvos, o: Obra, d: Dominio, a: Addr, prazo: int, agora: int): Obra
    requires d in alvos
  {
    if a in o.ends then AbsorverConhecido(alvos, o, d, a, prazo, agora)
    else if |o.ends| >= MAX_ENDERECOS || |Reivindicados(o.ends, d)| >= MAX_POR_DOMINIO then o
    else
      var l := Lugar(alvos[d].capacidade, alvos[d].marca);
      Obra(o.ends[a := Registro({d}, agora + prazo, prazo, None, false, Some(Pedido(prazo, l)))],
           o.aj.(escritas := o.aj.escritas + [Escrita(a, prazo, l, false)]))
  }

  ghost function AbsorverConhecido(alvos: Alvos, o: Obra, d: Dominio, a: Addr, prazo: int, agora: int): Obra
    requires a in o.ends
  {
    var r := Creditado(o.ends, d, a);
    var c := Destino(alvos, a, r.dominios);
    if c.None? || r.pendente.Some? then o.(ends := o.ends[a := r])
    else
      var trocou := r.escrito != c;
      if !trocou && !Vencendo(r, agora) then o.(ends := o.ends[a := r])
      else
        Obra(o.ends[a := r.(pendente := Some(Pedido(prazo, c.value)))],
             Ajuste(o.aj.escritas + [Escrita(a, prazo, c.value, !trocou)],
                    if trocou && r.escrito.Some? then o.aj.remocoes + [Remocao(a, r.escrito.value.cap)]
                    else o.aj.remocoes))
  }

  datatype Item = Item(addr: Addr, prazo: int)

  ghost function AbsorverLista(alvos: Alvos, protegidos: set<Addr>, o: Obra, d: Dominio, itens: seq<Item>,
    agora: int): Obra
    requires d in alvos
    decreases |itens|
  {
    if itens == [] then o
    else
      var p := AbsorverLista(alvos, protegidos, o, d, itens[..|itens| - 1], agora);
      var i := itens[|itens| - 1];
      if Aceitavel(protegidos, i.addr) && PodeEntrar(i.addr, alvos[d].capacidade)
      then Absorver(alvos, p, d, i.addr, i.prazo, agora)
      else p
  }

  // ----- rehearsal: what a domain that does not write yet has taught

  function LimparVencido(poco: Poco, agora: int): Poco {
    map a | a in poco && poco[a] > agora :: poco[a]
  }

  function GuardarUm(poco: Poco, a: Addr, vence: int, agora: int): Poco {
    if !Utilizavel(a) then poco
    else if a in poco || |poco| < MAX_POR_DOMINIO then poco[a := vence]
    else
      var limpo := LimparVencido(poco, agora);
      if |limpo| >= MAX_POR_DOMINIO then limpo else limpo[a := vence]
  }

  function GuardarEnsaio(poco: Poco, addrs: seq<Addr>, vence: int, agora: int): Poco
    decreases |addrs|
  {
    if addrs == [] then poco
    else GuardarUm(GuardarEnsaio(poco, addrs[..|addrs| - 1], vence, agora), addrs[|addrs| - 1], vence, agora)
  }

  // ----- matching a name against the list

  /** The position after the first dot, or the length of the name. */
  function AposPonto(nome: string): (n: nat)
    ensures n <= |nome| && (nome != [] ==> n > 0)
  {
    if nome == [] then 0 else if nome[0] == '.' then 1 else 1 + AposPonto(nome[1..])
  }

  /** Label by label, from the left. */
  function CasarRotulos(alvos: Alvos, nome: string): Option<Dominio>
    decreases |nome|
  {
    if nome == [] then None
    else if nome in alvos then Some(nome)
    else CasarRotulos(alvos, nome[AposPonto(nome)..])
  }

  function SemInicio(s: string, p: char -> bool): string {
    if s != [] && p(s[0]) then SemInicio(s[1..], p) else s
  }

  function SemFim(s: string, p: char -> bool): string {
    if s != [] && p(s[|s| - 1]) then SemFim(s[..|s| - 1], p) else s
  }

  function Aparado(s: string, p: char -> bool): string { SemFim(SemInicio(s, p), p) }

  predicate Ponto(c: char) { c == '.' }

  /**
   The lower case of a letter. Outside ASCII only two letters have one in ASCII (U+0130 and the kelvin sign); the
   others stay as they are, which no name of a list can tell.
   */
  function Minuscula(c: char): char {
    if 'A' <= c <= 'Z' then (c as int + 32) as char
    else if c == '\U{0130}' then 'i'
    else if c == '\U{212A}' then 'k'
    else c
  }

  function Minusculas(s: string): (r: string)
    ensures |r| == |s|
  {
    seq(|s|, i requires 0 <= i < |s| => Minuscula(s[i]))
  }

  /** A name as the list has it: without blanks around it, then without dots around it, in lower case. */
  function Normalizado(nome: string): string { Minusculas(Aparado(Aparado(nome, Text.Blank), Ponto)) }

  function CasarEm(alvos: Alvos, nome: string): Option<Dominio> { CasarRotulos(alvos, Normalizado(nome)) }

  // ----- the operations

  function Itens(addrs: seq<Addr>, prazo: int): seq<Item> {
    seq(|addrs|, i requires 0 <= i < |addrs| => Item(addrs[i], prazo))
  }

  ghost function Aprender(st: Estado, nome: string, addrs: seq<Addr>, ttl: int, agora: int): (Estado, Ajuste) {
    match CasarEm(st.alvos, nome)
    case None => (st, VAZIO)
    case Some(d) =>
      if !EhAtivo(st.alvos, d) then
        var poco := GuardarEnsaio(PocoDe(st.ensaiados, d), addrs, agora + Grampear(ttl), agora);
        (st.(ensaiados := st.ensaiados[d := poco]), VAZIO)
      else
        var o := AbsorverLista(st.alvos, st.protegidos, Obra(st.ends, VAZIO), d, Itens(addrs, Grampear(ttl)), agora);
        (st.(ends := o.ends), o.aj)
  }

  function Listar(lista: seq<Listado>): Alvos
    decreases |lista|
  {
    if lista == [] then map[]
    else
      var m := Listar(lista[..|lista| - 1]);
      var x := lista[|lista| - 1];
      if x.dominio.None? then m
      else m[x.dominio.value := Alvo(if x.capacidade == Some(Direcionar) then Direcionar else Barrar,
                                     if x.estagio == Some(Ativo) then Ativo else Ensaio, x.marca)]
  }

  function Promovidos(antes: Alvos, novos: Alvos): set<Dominio> {
    set d | d in novos && EhAtivo(novos, d) && !EhAtivo(antes, d)
  }

  ghost predicate MudaDeLugar(novos: Alvos, a: Addr, r: Registro) {
    var c := Destino(novos, a, r.dominios);
    c.Some? && c != r.escrito
  }

  /** What the new list leaves of one entry. */
  ghost function Reconciliado(novos: Alvos, a: Addr, r: Registro): Registro
    requires Destino(novos, a, r.dominios).Some?
  {
    var q := r.(dominios := Ativos(novos, r.dominios));
    if MudaDeLugar(novos, a, r) then q.(pendente := Some(Pedido(r.concedido, Destino(novos, a, r.dominios).value)))
    else q
  }

  ghost function EndsReconciliados(novos: Alvos, ends: Ends): Ends {
    map a | a in ends && Destino(novos, a, ends[a].dominios).Some? :: Reconciliado(novos, a, ends[a])
  }

  ghost predicate EscritaDevida(novos: Alvos, ends: Ends, e: Escrita) {
    e.addr in ends && MudaDeLugar(novos, e.addr, ends[e.addr]) &&
    e == Escrita(e.addr, ends[e.addr].concedido, Destino(novos, e.addr, ends[e.addr].dominios).value, false)
  }

  ghost predicate RemocaoDevida(novos: Alvos, ends: Ends, m: Remocao) {
    && m.addr in ends && ends[m.addr].escrito.Some? && m.cap == ends[m.addr].escrito.value.cap
    && Destino(novos, m.addr, ends[m.addr].dominios) != ends[m.addr].escrito
  }

  ghost predicate SemRepeticao(aj: Ajuste) {
    && (forall i, j | 0 <= i < j < |aj.escritas| :: aj.escritas[i].addr != aj.escritas[j].addr)
    && (forall i, j | 0 <= i < j < |aj.remocoes| :: aj.remocoes[i].addr != aj.remocoes[j].addr)
  }

  /** Entries of a listed domain that just lost its right to write, with their deadlines. */
  ghost function Rebaixados(novos: Alvos, ends: Ends, d: Dominio): Poco {
    if d in novos && !EhAtivo(novos, d) then map a | a in ends && d in ends[a].dominios :: ends[a].expira else map[]
  }

  function PocoListado(novos: Alvos, pocos: Pocos, d: Dominio): Poco {
    if d in novos then PocoDe(pocos, d) else map[]
  }

  /**
   What a pool can become when the addresses of `novos` are saved in it one by one, in the
   order Go happens to walk the index: everything when it fits, and never more than the cap.
   */
  ghost predicate PocoPossivel(antes: Poco, novos: Poco, depois: Poco) {
    var todos := antes + novos;
    && depois.Keys <= todos.Keys
    && (forall a | a in depois :: depois[a] == todos[a])
    && (|antes| <= MAX_POR_DOMINIO ==> |depois| <= MAX_POR_DOMINIO)
    && (|todos| <= MAX_POR_DOMINIO ==> depois == todos)
  }

  ghost predicate PocoDepois(st: Estado, novos: Alvos, pocos: Pocos, d: Dominio) {
    PocoPossivel(PocoListado(novos, st.ensaiados, d), Rebaixados(novos, st.ends, d), PocoDe(pocos, d))
  }

  /** The walk over the live entries, up to the order in which Go visits them. */
  ghost predicate Rodada(st: Estado, novos: Alvos, o: Obra, pocos: Pocos) {
    && o.ends == EndsReconciliados(novos, st.ends)
    && (forall e :: e in o.aj.escritas <==> EscritaDevida(novos, st.ends, e))
    && (forall m :: m in o.aj.remocoes <==> RemocaoDevida(novos, st.ends, m))
    && SemRepeticao(o.aj)
    && pocos.Keys <= novos.Keys
    && (forall d :: PocoDepois(st, novos, pocos, d))
  }

  datatype Passagem = Passagem(o: Obra, pocos: Pocos)

  function ItensDoPoco(poco: Poco, ordem: seq<Addr>, agora: int): seq<Item>
    requires forall a | a in ordem :: a in poco
  {
    seq(|ordem|, i requires 0 <= i < |ordem| => Item(ordem[i], Grampear(poco[ordem[i]] - agora)))
  }

  /** The addresses of a pool in the stable order the replay uses. */
  ghost function EmOrdem(poco: Poco): (q: seq<Addr>)
    ensures SortedOf(q, poco.Keys, AddrLess)
  {
    AddrTotalOn(poco.Keys);
    SortedExists(poco.Keys, AddrLess);
    Sorted(poco.Keys, AddrLess)
  }

  function PocoAceitavel(poco: Poco, protegidos: set<Addr>): Poco {
    map a | a in poco && Aceitavel(protegidos, a) :: poco[a]
  }

  ghost function ReplayEnsaio(novos: Alvos, protegidos: set<Addr>, p: Passagem, d: Dominio, agora: int): Passagem
    requires d in novos
  {
    var poco := PocoDe(p.pocos, d);
    if poco == map[] then p
    else
      var vivo := LimparVencido(poco, agora);
      Passagem(AbsorverLista(novos, protegidos, p.o, d, ItensDoPoco(vivo, EmOrdem(vivo), agora), agora),
               p.pocos[d := PocoAceitavel(vivo, protegidos)])
  }

  ghost function ReplayTodos(novos: Alvos, protegidos: set<Addr>, p: Passagem, promovidos: seq<Dominio>,
    agora: int): Passagem
    requires forall d | d in promovidos :: d in novos
    decreases |promovidos|
  {
    if promovidos == [] then p
    else ReplayEnsaio(novos, protegidos, ReplayTodos(novos, protegidos, p, promovidos[..|promovidos| - 1], agora),
                      promovidos[|promovidos| - 1], agora)
  }

  ghost function PromovidosEmOrdem(antes: Alvos, novos: Alvos): (q: seq<Dominio>)
    ensures forall d :: d in q <==> d in Promovidos(antes, novos)
  {
    var s := Promovidos(antes, novos);
    StrTotalOn(s);
    SortedExists(s, StrLess);
    Sorted(s, StrLess)
  }

  ghost function DefinirDepois(st: Estado, novos: Alvos, agora: int, o: Obra, pocos: Pocos): (Estado, Ajuste) {
    var p := ReplayTodos(novos, st.protegidos, Passagem(o, pocos), PromovidosEmOrdem(st.alvos, novos), agora);
    (Estado(novos, p.o.ends, p.pocos, st.protegidos), p.o.aj)
  }

  /** `DefinirAlvos(lista)` at `agora` may take `st` to `st'` and ask for `aj`. */
  ghost predicate Definir(st: Estado, lista: seq<Listado>, agora: int, st': Estado, aj: Ajuste) {
    exists o, pocos :: Rodada(st, Listar(lista), o, pocos)
      && (st', aj) == DefinirDepois(st, Listar(lista), agora, o, pocos)
  }

  // ----- what the kernel answered

  function Confirmado(r: Registro, agora: int): Registro
    requires r.pendente.Some?
  {
    var p := r.pendente.value;
    r.(expira := agora + p.prazo, concedido := p.prazo, escrito := Some(p.lugar), pendente := None, duvidoso := false)
  }

  function ConfirmarEnds(ends: Ends, addrs: set<Addr>, agora: int): Ends {
    map a | a in ends :: if a in addrs && ends[a].pendente.Some? then Confirmado(ends[a], agora) else ends[a]
  }

  function NaoConfirmadoEnds(ends: Ends, addrs: set<Addr>): Ends {
    map a | a in ends && !(a in addrs && ends[a].pendente.Some? && ends[a].escrito.None?) ::
      if a in addrs && ends[a].pendente.Some? then ends[a].(pendente := None, duvidoso := true) else ends[a]
  }

  predicate Vencido(r: Registro, corte: int) { r.pendente.None? && r.expira <= corte }

  function PodarEnds(ends: Ends, corte: int): Ends {
    map a | a in ends && !Vencido(ends[a], corte) :: ends[a]
  }

  function PodarPocos(pocos: Pocos, corte: int): Pocos {
    map d | d in pocos && LimparVencido(pocos[d], corte) != map[] :: LimparVencido(pocos[d], corte)
  }

  function Podar(st: Estado, agora: int): Estado {
    var corte := agora - FOLGA_DE_PODA;
    st.(ends := PodarEnds(st.ends, corte), ensaiados := PodarPocos(st.ensaiados, corte))
  }
}
