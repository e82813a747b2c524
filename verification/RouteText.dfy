/** The `ip route` arguments built for a list of nexthops, and read back from what `ip route show` prints. */
module RouteText {
  import opened Options
  import opened Text
  import opened Weights

  const KEY := "nexthop"
  const DEFAULT_TABLE := "main"

  function TableOf(table: string): string { if table == "" then DEFAULT_TABLE else table }

  function Prefix(table: string): seq<string> { ["route", "replace", "default", "table", TableOf(table)] }

  // ----- building

  function AtLeastOne(w: int): nat { if w < 1 then 1 else w }

  /** The words of one leg. */
  function LegWords(n: Nexthop): seq<string> {
    ["via", n.gateway, "dev", n.interface_, "weight", Decimal(AtLeastOne(n.weight)), "onlink"]
  }

  function Legs(ns: seq<Nexthop>): seq<string> {
    if ns == [] then [] else [KEY] + LegWords(ns[0]) + Legs(ns[1..])
  }

  lemma {:induction false} LegsAppend(a: seq<Nexthop>, b: seq<Nexthop>)
    ensures Legs(a + b) == Legs(a) + Legs(b)
  {
    if a == [] {
      assert a + b == b;
    } else {
      LegsAppend(a[1..], b);
      assert (a + b)[1..] == a[1..] + b && (a + b)[0] == a[0];
      assert Legs(a + b) == [KEY] + LegWords(a[0]) + (Legs(a[1..]) + Legs(b));
    }
  }

  lemma OneMoreLeg(ns: seq<Nexthop>, n: Nexthop, a: seq<string>, prefix: seq<string>)
    requires a == prefix + Legs(ns)
    ensures a + ["nexthop", "via", n.gateway, "dev", n.interface_, "weight", Decimal(AtLeastOne(n.weight)), "onlink"]
         == prefix + Legs(ns + [n])
  {
    LegsAppend(ns, [n]);
    assert Legs([n]) == [KEY] + LegWords(n) + [];
    assert [KEY] + LegWords(n)
        == ["nexthop", "via", n.gateway, "dev", n.interface_, "weight", Decimal(AtLeastOne(n.weight)), "onlink"];
  }

  method BuildReplaceArgs(table: string, nhs: seq<Nexthop>) returns (args: Option<seq<string>>)
    ensures args == if nhs == [] then None else Some(Prefix(table) + Legs(nhs))
    ensures args.Some? ==>
              args.value[..5] == ["route", "replace", "default", "table", if table == "" then "main" else table]
  {
    if nhs == [] { return None; }
    var t := table;
    if t == "" { t := DEFAULT_TABLE; }
    var a := ["route", "replace", "default", "table", t];
    for i := 0 to |nhs|
      invariant a == Prefix(table) + Legs(nhs[..i])
    {
      var n := nhs[i];
      var w := n.weight;
      if w < 1 { w := 1; }
      assert nhs[..i + 1] == nhs[..i] + [n];
      OneMoreLeg(nhs[..i], n, a, Prefix(table));
      a := a + ["nexthop", "via", n.gateway, "dev", n.interface_, "weight", Decimal(w), "onlink"];
    }
    assert nhs[..|nhs|] == nhs;
    return Some(a);
  }

  // ----- reading back

  /** What one leg says; "" where it says nothing. */
  datatype Leg = Leg(via: string, dev: string, weight: string, onlink: bool)

  const BLANK_LEG := Leg("", "", "", false)

  /** Reading the words `f` after `l`: a key takes the next word, if there is one. */
  function Read(f: seq<string>, l: Leg): Leg
    decreases |f|
  {
    if f == [] then l
    else if f[0] == "via" && |f| > 1 then Read(f[2..], l.(via := f[1]))
    else if f[0] == "dev" && |f| > 1 then Read(f[2..], l.(dev := f[1]))
    else if f[0] == "weight" && |f| > 1 then Read(f[2..], l.(weight := f[1]))
    else if f[0] == "onlink" then Read(f[1..], l.(onlink := true))
    else Read(f[1..], l)
  }

  function LegArgs(l: Leg): Option<seq<string>> {
    if l.via == "" || l.dev == "" then None
    else Some([KEY, "via", l.via, "dev", l.dev]
              + (if l.weight != "" then ["weight", l.weight] else [])
              + (if l.onlink then ["onlink"] else []))
  }

  method ParseNexthopFields(f: seq<string>) returns (leg: Option<seq<string>>)
    ensures leg == LegArgs(Read(f, BLANK_LEG))
  {
    var via, dev, weight, onlink := "", "", "", false;
    var i := 0;
    while i < |f|
      invariant 0 <= i <= |f|
      invariant Read(f[i..], Leg(via, dev, weight, onlink)) == Read(f, BLANK_LEG)
    {
      assert f[i..][1..] == f[i + 1..];
      if i + 1 < |f| { assert f[i..][2..] == f[i + 2..]; }
      if f[i] == "via" {
        if i + 1 < |f| { via := f[i + 1]; i := i + 1; }
      } else if f[i] == "dev" {
        if i + 1 < |f| { dev := f[i + 1]; i := i + 1; }
      } else if f[i] == "weight" {
        if i + 1 < |f| { weight := f[i + 1]; i := i + 1; }
      } else if f[i] == "onlink" {
        onlink := true;
      }
      i := i + 1;
    }
    assert f[i..] == [];
    if via == "" || dev == "" { return None; }
    var out := ["nexthop", "via", via, "dev", dev];
    if weight != "" { out := out + ["weight", weight]; }
    if onlink { out := out + ["onlink"]; }
    assert out == ["nexthop", "via", via, "dev", dev]
                  + (if weight != "" then ["weight", weight] else []) + (if onlink then ["onlink"] else []);
    return Some(out);
  }

  /** The form with one gateway has no weight. */
  function ReadSingle(f: seq<string>, l: Leg): Leg
    decreases |f|
  {
    if f == [] then l
    else if f[0] == "via" && |f| > 1 then ReadSingle(f[2..], l.(via := f[1]))
    else if f[0] == "dev" && |f| > 1 then ReadSingle(f[2..], l.(dev := f[1]))
    else if f[0] == "onlink" then ReadSingle(f[1..], l.(onlink := true))
    else ReadSingle(f[1..], l)
  }

  function SingleArgs(l: Leg): Option<seq<string>> {
    if l.via == "" && l.dev == "" then None
    else Some((if l.via != "" then ["via", l.via] else [])
              + (if l.dev != "" then ["dev", l.dev] else [])
              + (if l.onlink then ["onlink"] else []))
  }

  method ParseSinglePathFields(f: seq<string>) returns (leg: Option<seq<string>>)
    ensures leg == SingleArgs(ReadSingle(f, BLANK_LEG))
  {
    var via, dev, onlink := "", "", false;
    var i := 0;
    while i < |f|
      invariant 0 <= i <= |f|
      invariant ReadSingle(f[i..], Leg(via, dev, "", onlink)) == ReadSingle(f, BLANK_LEG)
    {
      assert f[i..][1..] == f[i + 1..];
      if i + 1 < |f| { assert f[i..][2..] == f[i + 2..]; }
      if f[i] == "via" {
        if i + 1 < |f| { via := f[i + 1]; i := i + 1; }
      } else if f[i] == "dev" {
        if i + 1 < |f| { dev := f[i + 1]; i := i + 1; }
      } else if f[i] == "onlink" {
        onlink := true;
      }
      i := i + 1;
    }
    assert f[i..] == [];
    if via == "" && dev == "" { return None; }
    var out: seq<string> := [];
    if via != "" { out := out + ["via", via]; }
    if dev != "" { out := out + ["dev", dev]; }
    if onlink { out := out + ["onlink"]; }
    assert out == (if via != "" then ["via", via] else []) + (if dev != "" then ["dev", dev] else [])
                  + (if onlink then ["onlink"] else []);
    return Some(out);
  }

  /** The legs of the parts of a split text, those that name a gateway and an interface. */
  function PartArgs(ps: seq<string>): seq<string> {
    if ps == [] then []
    else
      var leg := LegArgs(Read(Fields(ps[0]), BLANK_LEG));
      (if leg.Some? then leg.value else []) + PartArgs(ps[1..])
  }

  function Restored(show: string, table: string): Option<seq<string>> {
    var words := Fields(show);
    var flat := Join(words, " ");
    if flat == "" then None
    else if Index(flat, KEY).Some? then
      var legs := PartArgs(Split(flat, KEY));
      if legs == [] then None else Some(Prefix(table) + legs)
    else
      var f := Fields(flat);
      var leg := SingleArgs(ReadSingle(if f != [] && f[0] == "default" then f[1..] else f, BLANK_LEG));
      if leg == None then None else Some(Prefix(table) + leg.value)
  }

  lemma {:induction false} PartArgsAppend(a: seq<string>, p: string)
    ensures PartArgs(a + [p]) == PartArgs(a) + PartArgs([p])
  {
    if a == [] {
      assert a + [p] == [p];
    } else {
      PartArgsAppend(a[1..], p);
      assert (a + [p])[1..] == a[1..] + [p] && (a + [p])[0] == a[0];
    }
  }

  method RestoreLegs(flat: string) returns (legs: seq<string>)
    ensures legs == PartArgs(Split(flat, KEY))
  {
    legs := [];
    var parts := Split(flat, KEY);
    for i := 0 to |parts|
      invariant legs == PartArgs(parts[..i])
    {
      assert parts[..i + 1] == parts[..i] + [parts[i]];
      PartArgsAppend(parts[..i], parts[i]);
      var leg := ParseNexthopFields(Fields(parts[i]));
      if leg.Some? { legs := legs + leg.value; }
    }
    assert parts[..|parts|] == parts;
  }

  method RestoreArgsFromShow(show: string, table: string) returns (args: Option<seq<string>>)
    ensures args == Restored(show, table)
  {
    var t := if table == "" then DEFAULT_TABLE else table;
    var flat := Join(Fields(show), " ");
    if flat == "" { return None; }
    var prefix := ["route", "replace", "default", "table", t];
    if Index(flat, KEY).Some? {
      var legs := RestoreLegs(flat);
      return if legs == [] then None else Some(prefix + legs);
    }
    var f := Fields(flat);
    if |f| > 0 && f[0] == "default" { f := f[1..]; }
    var leg := ParseSinglePathFields(f);
    return if leg == None then None else Some(prefix + leg.value);
  }

  // ----- what is printed reads back as what was built

  /** A word of a route that is not mistaken for another: no blank, and no "nexthop" in it. */
  ghost predicate Plain(w: string) { Word(w) && !Has(w, KEY) }

  ghost predicate PlainLeg(n: Nexthop) { Plain(n.gateway) && Plain(n.interface_) }

  /** What `ip` prints before the legs: "default", and perhaps more words that name no gateway. */
  ghost predicate Header(h: seq<string>) { h != [] && (forall w | w in h :: Plain(w)) && "via" !in h }

  lemma NumbersArePlain(n: nat)
    ensures Plain(Decimal(n))
  {
    DecimalIsDigits(n);
    var w := Decimal(n);
    forall i: nat ensures !At(w, KEY, i) {
      if i + |KEY| <= |w| { assert w[i..i + |KEY|][0] == w[i] && KEY[0] == 'n'; }
    }
  }

  lemma ShortIsPlain(w: string)
    requires Word(w) && |w| < |KEY|
    ensures Plain(w)
  {
  }

  lemma LegWordsArePlain(n: Nexthop)
    requires PlainLeg(n)
    ensures forall w | w in LegWords(n) :: Plain(w)
  {
    NumbersArePlain(AtLeastOne(n.weight));
    ShortIsPlain("via");
    ShortIsPlain("dev");
    ShortIsPlain("weight");
    ShortIsPlain("onlink");
  }

  /** The words of a leg read back as the leg, whatever the gateway and the interface are called. */
  lemma ReadLeg(n: Nexthop)
    requires PlainLeg(n)
    ensures LegArgs(Read(LegWords(n), BLANK_LEG)) == Some([KEY] + LegWords(n))
    ensures Read(LegWords(n), BLANK_LEG)
         == Leg(n.gateway, n.interface_, Decimal(if n.weight < 1 then 1 else n.weight), true)
  {
    var f := LegWords(n);
    var w := Decimal(AtLeastOne(n.weight));
    NumbersArePlain(AtLeastOne(n.weight));
    assert f[2..] == ["dev", n.interface_, "weight", w, "onlink"];
    assert f[2..][2..] == ["weight", w, "onlink"];
    assert f[2..][2..][2..] == ["onlink"];
    assert f[2..][2..][2..][1..] == [];
    assert Read(f[2..][2..][2..], Leg(n.gateway, n.interface_, w, false)) == Leg(n.gateway, n.interface_, w, true);
    assert Read(f[2..][2..], Leg(n.gateway, n.interface_, "", false)) == Leg(n.gateway, n.interface_, w, true);
    assert Read(f[2..], Leg(n.gateway, "", "", false)) == Leg(n.gateway, n.interface_, w, true);
    assert [KEY, "via", n.gateway, "dev", n.interface_] + ["weight", w] + ["onlink"] == [KEY] + f;
  }

  lemma {:induction false} ReadHeader(h: seq<string>, l: Leg)
    requires "via" !in h && l.via == ""
    ensures Read(h, l).via == ""
    decreases |h|
  {
    if h != [] {
      if h[0] == "dev" && |h| > 1 { ReadHeader(h[2..], l.(dev := h[1])); }
      else if h[0] == "weight" && |h| > 1 { ReadHeader(h[2..], l.(weight := h[1])); }
      else if h[0] == "onlink" { ReadHeader(h[1..], l.(onlink := true)); }
      else { ReadHeader(h[1..], l); }
    }
  }

  /** The text of the words `ws` and then of the legs. */
  function Flat(ws: seq<string>, ns: seq<Nexthop>): string
    decreases |ns|
  {
    if ns == [] then Join(ws, " ") else Join(ws, " ") + " " + KEY + " " + Flat(LegWords(ns[0]), ns[1..])
  }

  lemma {:induction false} FlatIsJoin(ws: seq<string>, ns: seq<Nexthop>)
    requires ws != []
    ensures Join(ws + Legs(ns), " ") == Flat(ws, ns)
    decreases |ns|
  {
    if ns == [] {
      assert ws + [] == ws;
    } else {
      LegsHead(ns);
      JoinLegs(ws, LegWords(ns[0]) + Legs(ns[1..]));
      FlatIsJoin(LegWords(ns[0]), ns[1..]);
    }
  }

  lemma LegsHead(ns: seq<Nexthop>)
    requires ns != []
    ensures Legs(ns) == [KEY] + (LegWords(ns[0]) + Legs(ns[1..]))
  {
  }

  lemma JoinLegs(ws: seq<string>, rest: seq<string>)
    requires ws != [] && rest != []
    ensures Join(ws + ([KEY] + rest), " ") == Join(ws, " ") + " " + KEY + " " + Join(rest, " ")
  {
    JoinAppend(ws, [KEY] + rest);
    assert ([KEY] + rest)[1..] == rest;
    KeyFirst(Join(ws, " "), Join(rest, " "));
  }

  lemma KeyFirst(a: string, b: string)
    ensures a + " " + (KEY + " " + b) == a + " " + KEY + " " + b
  {
  }

  ghost predicate PlainWords(ws: seq<string>) { forall w | w in ws :: Plain(w) }
  ghost predicate PlainLegs(ns: seq<Nexthop>) { forall n | n in ns :: PlainLeg(n) }

  /** The parts of the split text: the words `ws`, then the words of each leg. */
  ghost predicate Parts(ps: seq<string>, ws: seq<string>, ns: seq<Nexthop>) {
    |ps| > 0 && Fields(ps[0]) == ws && PartArgs(ps[1..]) == Legs(ns)
  }

  lemma PartsStep(p: string, qs: seq<string>, ws: seq<string>, ns: seq<Nexthop>)
    requires ns != [] && PlainLeg(ns[0]) && Fields(p) == ws && Parts(qs, LegWords(ns[0]), ns[1..])
    ensures Parts([p] + qs, ws, ns)
  {
    ReadLeg(ns[0]);
    assert ([p] + qs)[1..] == qs;
  }

  lemma Trailing(t: string)
    ensures Fields(t + " ") == Fields(t)
  {
    FieldsAppend(t, " ");
    FieldsBlank(' ', []);
    assert [' '] + [] == " ";
  }

  lemma {:induction false} SplitFlat(ws: seq<string>, ns: seq<Nexthop>, lead: string)
    requires PlainWords(ws) && PlainLegs(ns) && (lead == "" || lead == " ")
    ensures Parts(Split(lead + Flat(ws, ns), KEY), ws, ns)
    decreases |ns|
  {
    LedFields(lead, ws);
    if ns == [] {
      NoSplit(ws, lead);
    } else {
      NoKeyIn(ws, lead);
      FlatText(ws, ns, lead);
      FirstSplit(lead + Join(ws, " "), " " + Flat(LegWords(ns[0]), ns[1..]));
      LegWordsArePlain(ns[0]);
      SplitFlat(LegWords(ns[0]), ns[1..], " ");
      Trailing(lead + Join(ws, " "));
      PartsStep(lead + Join(ws, " ") + " ", Split(" " + Flat(LegWords(ns[0]), ns[1..]), KEY), ws, ns);
    }
  }

  lemma NoKeyIn(ws: seq<string>, lead: string)
    requires PlainWords(ws) && (lead == "" || lead == " ")
    ensures !Has(lead + Join(ws, " "), KEY)
  {
    NotInJoin(ws, KEY);
    NotLed(lead, Join(ws, " "));
  }

  lemma NoSplit(ws: seq<string>, lead: string)
    requires PlainWords(ws) && (lead == "" || lead == " ")
    ensures Split(lead + Join(ws, " "), KEY) == [lead + Join(ws, " ")]
  {
    NoKeyIn(ws, lead);
  }

  lemma FirstSplit(t: string, rest: string)
    requires !Has(t, KEY)
    ensures Split(t + " " + KEY + rest, KEY) == [t + " "] + Split(rest, KEY)
  {
    SplitAtKey(t, KEY, rest);
  }

  lemma FlatText(ws: seq<string>, ns: seq<Nexthop>, lead: string)
    requires ns != []
    ensures lead + Flat(ws, ns) == (lead + Join(ws, " ")) + " " + KEY + (" " + Flat(LegWords(ns[0]), ns[1..]))
  {
    Regroup(lead, Join(ws, " "), " ", KEY, " ", Flat(LegWords(ns[0]), ns[1..]));
  }

  lemma Regroup(a: string, b: string, c: string, d: string, e: string, f: string)
    ensures a + (b + c + d + e + f) == (a + b) + c + d + (e + f)
  {
  }

  lemma NotLed(lead: string, t: string)
    requires (lead == "" || lead == " ") && !Has(t, KEY)
    ensures !Has(lead + t, KEY)
  {
    if lead == "" {
      assert lead + t == t;
    } else {
      NotAcross("", t, KEY);
      assert "" + " " + t == lead + t;
    }
  }

  lemma LedFields(lead: string, ws: seq<string>)
    requires (lead == "" || lead == " ") && forall w | w in ws :: Word(w)
    ensures Fields(lead + Join(ws, " ")) == ws
  {
    FieldsOfJoin(ws);
    if lead == "" {
      assert lead + Join(ws, " ") == Join(ws, " ");
    } else {
      FieldsBlank(' ', Join(ws, " "));
    }
  }

  lemma KeyInFlat(h: seq<string>, ns: seq<Nexthop>)
    requires ns != []
    ensures Index(Flat(h, ns), KEY).Some? && Flat(h, ns) != ""
  {
    var i := |Join(h, " ") + " "|;
    assert At(Flat(h, ns), KEY, i);
  }

  lemma LegsOfFlat(h: seq<string>, ns: seq<Nexthop>)
    requires Header(h) && PlainLegs(ns)
    ensures PartArgs(Split(Flat(h, ns), KEY)) == Legs(ns)
  {
    SplitFlat(h, ns, "");
    assert "" + Flat(h, ns) == Flat(h, ns);
    ReadHeader(h, BLANK_LEG);
  }

  /** Any text with the words of a multipath route reads back as the arguments built for its legs. */
  lemma RouteRoundTrip(show: string, table: string, h: seq<string>, ns: seq<Nexthop>)
    requires Header(h) && ns != [] && PlainLegs(ns)
    requires Fields(show) == h + Legs(ns)
    ensures Restored(show, table) == Some(Prefix(table) + Legs(ns))
  {
    FlatIsJoin(h, ns);
    KeyInFlat(h, ns);
    LegsOfFlat(h, ns);
  }

  /** The layout of `ip route show`: one leg a line, set in with a tab. */
  function Lines(ns: seq<Nexthop>): string {
    if ns == [] then "" else "\n\t" + KEY + " " + Join(LegWords(ns[0]), " ") + " " + Lines(ns[1..])
  }

  function Printed(h: seq<string>, ns: seq<Nexthop>): string { Join(h, " ") + " " + Lines(ns) }

  lemma FieldsOfLine(n: Nexthop, rest: string)
    requires PlainLeg(n)
    ensures Fields("\n\t" + KEY + " " + Join(LegWords(n), " ") + " " + rest) == [KEY] + LegWords(n) + Fields(rest)
  {
    LegWordsArePlain(n);
    var ws := [KEY] + LegWords(n);
    FieldsOfText(ws, rest);
    assert ws[1..] == LegWords(n);
    LineText(Join(LegWords(n), " "), rest);
  }

  lemma FieldsOfText(ws: seq<string>, rest: string)
    requires forall w | w in ws :: Word(w)
    ensures Fields(['\n'] + (['\t'] + (Join(ws, " ") + ([' '] + rest)))) == ws + Fields(rest)
  {
    var body := Join(ws, " ");
    FieldsBlank('\n', ['\t'] + (body + ([' '] + rest)));
    FieldsBlank('\t', body + ([' '] + rest));
    FieldsAppend(body, [' '] + rest);
    FieldsBlank(' ', rest);
    FieldsOfJoin(ws);
  }

  lemma LineText(words: string, rest: string)
    ensures "\n\t" + KEY + " " + words + " " + rest == ['\n'] + (['\t'] + (KEY + " " + words + ([' '] + rest)))
  {
  }

  lemma {:induction false} FieldsOfLines(ns: seq<Nexthop>)
    requires PlainLegs(ns)
    ensures Fields(Lines(ns)) == Legs(ns)
  {
    if ns != [] {
      FieldsOfLines(ns[1..]);
      FieldsOfLine(ns[0], Lines(ns[1..]));
    }
  }

  lemma FieldsOfPrinted(h: seq<string>, ns: seq<Nexthop>)
    requires Header(h) && PlainLegs(ns)
    ensures Fields(Printed(h, ns)) == h + Legs(ns)
  {
    FieldsOfLines(ns);
    FieldsOfJoin(h);
    FieldsAppend(Join(h, " "), [' '] + Lines(ns));
    FieldsBlank(' ', Lines(ns));
    assert Printed(h, ns) == Join(h, " ") + ([' '] + Lines(ns));
  }

  /** What `ip route show` prints for the legs that were installed restores exactly those legs. */
  lemma PrintedRouteRoundTrip(table: string, h: seq<string>, ns: seq<Nexthop>)
    requires Header(h) && ns != [] && PlainLegs(ns)
    ensures Restored(Printed(h, ns), table) == Some(Prefix(table) + Legs(ns))
  {
    FieldsOfPrinted(h, ns);
    RouteRoundTrip(Printed(h, ns), table, h, ns);
  }

  // ----- the form with one gateway

  lemma {:induction false} ReadTail(f: seq<string>, l: Leg)
    requires "via" !in f && "dev" !in f
    ensures ReadSingle(f, l) == l.(onlink := l.onlink || "onlink" in f)
    decreases |f|
  {
    if f != [] {
      assert f == [f[0]] + f[1..];
      if f[0] == "onlink" { ReadTail(f[1..], l.(onlink := true)); } else { ReadTail(f[1..], l); }
    }
  }

  lemma ReadOneGateway(gateway: string, dev: string, tail: seq<string>)
    requires "via" !in tail && "dev" !in tail
    ensures ReadSingle(["via", gateway, "dev", dev] + tail, BLANK_LEG) == Leg(gateway, dev, "", "onlink" in tail)
  {
    var f := ["via", gateway, "dev", dev] + tail;
    assert f[2..] == ["dev", dev] + tail && f[2..][2..] == tail;
    ReadTail(tail, Leg(gateway, dev, "", false));
  }

  /**
   Any text with the words of a route with one gateway restores that gateway and that interface, onlink if it was,
   and nothing else of what it says.
   */
  lemma SinglePathRoundTrip(show: string, table: string, gateway: string, dev: string, tail: seq<string>)
    requires Fields(show) == ["default", "via", gateway, "dev", dev] + tail
    requires PlainWords(Fields(show)) && "via" !in tail && "dev" !in tail
    ensures Restored(show, table)
         == Some(Prefix(table) + ["via", gateway, "dev", dev] + if "onlink" in tail then ["onlink"] else [])
  {
    var words := Fields(show);
    assert words[1..] == ["via", gateway, "dev", dev] + tail;
    assert words[2] in words && words[4] in words && Word(gateway) && Word(dev);
    NoLegsRestores(show, table, words);
    ReadOneGateway(gateway, dev, tail);
    OneGatewayArgs(table, gateway, dev, "onlink" in tail);
  }

  /** A text without the key is read as the form with one gateway. */
  lemma NoLegsRestores(show: string, table: string, words: seq<string>)
    requires Fields(show) == words && PlainWords(words) && words != [] && words[0] == "default"
    ensures var leg := SingleArgs(ReadSingle(words[1..], BLANK_LEG));
      Restored(show, table) == if leg == None then None else Some(Prefix(table) + leg.value)
  {
    FieldsOfJoin(words);
    NotInJoin(words, KEY);
    JoinIsText(words);
  }

  lemma OneGatewayArgs(table: string, gateway: string, dev: string, onlink: bool)
    requires gateway != "" && dev != ""
    ensures SingleArgs(Leg(gateway, dev, "", onlink))
         == Some(["via", gateway, "dev", dev] + if onlink then ["onlink"] else [])
    ensures Prefix(table) + (["via", gateway, "dev", dev] + if onlink then ["onlink"] else [])
         == Prefix(table) + ["via", gateway, "dev", dev] + if onlink then ["onlink"] else []
  {
    assert ["via", gateway] + ["dev", dev] == ["via", gateway, "dev", dev];
  }

  lemma JoinIsText(ws: seq<string>)
    requires ws != [] && ws[0] != []
    ensures Join(ws, " ") != []
  {
  }
}
