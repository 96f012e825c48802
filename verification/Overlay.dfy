/**
 The data-plane overlay (internal/controller/gateway_objects.go): edits of single
 fields inside a nested document other people edit too.
 */
module Overlay {
  import opened Common

  /** An unstructured document value. */
  datatype Value =
    | Null
    | Str(text: string)
    | Int(number: int)
    | Other(text: string)
    | List(items: seq<Value>)
    | Obj(fields: map<string, Value>)

  type Fields = map<string, Value>

  datatype Path = Leaf(key: string) | Into(key: string, rest: Path)

  // ----- The library's nested accessors -----

  /** A missing or null container reads as absent, any other non-object is an error. */
  function Get(m: Fields, p: Path): Result<Option<Value>, ()>
    decreases p
  {
    match p
    case Leaf(k) => Ok(Lookup(m, k))
    case Into(k, rest) =>
      match Lookup(m, k)
      case None => Ok(None)
      case Some(Null) => Ok(None)
      case Some(Obj(n)) => Get(n, rest)
      case Some(_) => Err(())
  }

  /** Creates missing containers; a container that is there must be an object. */
  function Set(m: Fields, p: Path, v: Value): Result<Fields, ()>
    decreases p
  {
    match p
    case Leaf(k) => Ok(m[k := v])
    case Into(k, rest) =>
      match Lookup(m, k)
      case None => (match Set(map[], rest, v) case Ok(n) => Ok(m[k := Obj(n)]) case Err(e) => Err(e))
      case Some(Obj(n)) => (match Set(n, rest, v) case Ok(o) => Ok(m[k := Obj(o)]) case Err(e) => Err(e))
      case Some(_) => Err(())
  }

  /** Does nothing where the path leads nowhere. */
  function Remove(m: Fields, p: Path): Fields
    decreases p
  {
    match p
    case Leaf(k) => m - {k}
    case Into(k, rest) =>
      match Lookup(m, k)
      case Some(Obj(n)) => m[k := Obj(Remove(n, rest))]
      case _ => m
  }

  function GetMap(m: Fields, p: Path): Result<Option<Fields>, ()> {
    match Get(m, p)
    case Err(e) => Err(e)
    case Ok(None) => Ok(None)
    case Ok(Some(Obj(n))) => Ok(Some(n))
    case Ok(Some(_)) => Err(())
  }

  function GetList(m: Fields, p: Path): Result<seq<Value>, ()> {
    match Get(m, p)
    case Err(e) => Err(e)
    case Ok(None) => Ok([])
    case Ok(Some(List(xs))) => Ok(xs)
    case Ok(Some(_)) => Err(())
  }

  function Lookup(m: Fields, k: string): Option<Value> {
    if k in m then Some(m[k]) else None
  }

  function Put(m: Fields, k: string, v: Option<Value>): Fields {
    match v
    case None => m - {k}
    case Some(x) => m[k := x]
  }

  // ----- The fields the operator owns -----

  const ADMIN_ADDR: Value := Str("[::]:15000")
  const ADMIN_PORT: int := 15000
  const CLUSTER_IP: Value := Str("ClusterIP")

  const ADMIN_PORT_ENTRY: Value := Obj(map[
    "name" := Str("admin"), "port" := Int(ADMIN_PORT), "protocol" := Str("TCP"), "targetPort" := Int(ADMIN_PORT)])

  function AddrPath(): Path { Into("spec", Into("rawConfig", Into("config", Leaf("adminAddr")))) }
  function ConfigPath(): Path { Into("spec", Into("rawConfig", Leaf("config"))) }
  function RawConfigPath(): Path { Into("spec", Leaf("rawConfig")) }
  function PortsPath(): Path { Into("spec", Into("service", Into("spec", Leaf("ports")))) }
  function TypePath(): Path { Into("spec", Into("service", Into("spec", Leaf("type")))) }

  predicate IsAdminPort(v: Value) {
    v.Obj? && "port" in v.fields && v.fields["port"] == Int(ADMIN_PORT)
  }

  /** The ports that are not the admin port, in order. */
  function OtherPorts(ports: seq<Value>): seq<Value> {
    if ports == [] then []
    else
      var v := ports[|ports| - 1];
      OtherPorts(ports[..|ports| - 1]) + if IsAdminPort(v) then [] else [v]
  }

  // ----- What an edit makes of the two parts of the spec -----

  function ConfigAfter(config: Option<Value>, exposed: bool): Result<Option<Value>, ()> {
    match config
    case None => Ok(if exposed then Some(Obj(map["adminAddr" := ADMIN_ADDR])) else None)
    case Some(Obj(c)) =>
      if exposed then Ok(Some(Obj(c["adminAddr" := ADMIN_ADDR])))
      else if c - {"adminAddr"} == map[] then Ok(None)
      else Ok(Some(Obj(c - {"adminAddr"})))
    case Some(_) => Err(())
  }

  function RawConfigAfter(raw: Option<Value>, exposed: bool): Result<Option<Value>, ()> {
    match raw
    case Some(Obj(r)) =>
      (match ConfigAfter(Lookup(r, "config"), exposed)
       case Err(e) => Err(e)
       case Ok(c) => Ok(if Put(r, "config", c) == map[] then None else Some(Obj(Put(r, "config", c)))))
    case None => Ok(if exposed then Some(Obj(map["config" := Obj(map["adminAddr" := ADMIN_ADDR])])) else None)
    case Some(_) => Err(())
  }

  function PortsAfter(ports: Option<Value>, exposed: bool): Result<Option<Value>, ()> {
    match ports
    case None => Ok(if exposed then Some(List([ADMIN_PORT_ENTRY])) else None)
    case Some(List(xs)) =>
      if exposed then Ok(Some(List(OtherPorts(xs) + [ADMIN_PORT_ENTRY])))
      else if OtherPorts(xs) == [] then Ok(None)
      else Ok(Some(List(OtherPorts(xs))))
    case Some(_) => Err(())
  }

  /** A field of a container: switching on creates the container, switching off leaves a missing or null one. */
  function ServiceAfter(service: Option<Value>, exposed: bool): Result<Option<Value>, ()> {
    match service
    case Some(Obj(v)) =>
      (match ServiceSpecAfter(Lookup(v, "spec"), exposed)
       case Err(e) => Err(e)
       case Ok(w) => Ok(Some(Obj(Put(v, "spec", w)))))
    case None =>
      Ok(if exposed then Some(Obj(map["spec" := Obj(map["ports" := List([ADMIN_PORT_ENTRY])])])) else None)
    case Some(Null) => if exposed then Err(()) else Ok(service)
    case Some(_) => Err(())
  }

  function ServiceSpecAfter(serviceSpec: Option<Value>, exposed: bool): Result<Option<Value>, ()> {
    match serviceSpec
    case Some(Obj(w)) =>
      (match PortsAfter(Lookup(w, "ports"), exposed)
       case Err(e) => Err(e)
       case Ok(ports) => Ok(Some(Obj(Put(w, "ports", ports)))))
    case None => Ok(if exposed then Some(Obj(map["ports" := List([ADMIN_PORT_ENTRY])])) else None)
    case Some(Null) => if exposed then Err(()) else Ok(serviceSpec)
    case Some(_) => Err(())
  }

  function AddrAfter(m: Fields, exposed: bool): Result<Fields, ()> {
    match Lookup(m, "spec")
    case Some(Obj(s)) =>
      (match RawConfigAfter(Lookup(s, "rawConfig"), exposed)
       case Err(e) => Err(e)
       case Ok(raw) => Ok(m["spec" := Obj(Put(s, "rawConfig", raw))]))
    case None =>
      Ok(if exposed then m["spec" := Obj(map["rawConfig" := RawConfigAfter(None, true).value.value])] else m)
    case Some(Null) => if exposed then Err(()) else Ok(m)
    case Some(_) => Err(())
  }

  function ServicePortAfter(m: Fields, exposed: bool): Result<Fields, ()> {
    match Lookup(m, "spec")
    case Some(Obj(s)) =>
      (match ServiceAfter(Lookup(s, "service"), exposed)
       case Err(e) => Err(e)
       case Ok(service) => Ok(m["spec" := Obj(Put(s, "service", service))]))
    case None =>
      Ok(if exposed then m["spec" := Obj(map["service" := ServiceAfter(None, true).value.value])] else m)
    case Some(Null) => if exposed then Err(()) else Ok(m)
    case Some(_) => Err(())
  }

  function InterfaceAfter(m: Fields, exposed: bool): Result<Fields, ()> {
    match AddrAfter(m, exposed)
    case Err(e) => Err(e)
    case Ok(n) => ServicePortAfter(n, exposed)
  }

  // ----- The edits -----

  class Document {
    var doc: Fields

    constructor (doc: Fields)
      ensures this.doc == doc
    {
      this.doc := doc;
    }

    method ApplyAdminAddr(exposed: bool) returns (ok: bool)
      modifies this
      ensures ok <==> AddrAfter(old(doc), exposed).Ok?
      ensures ok ==> doc == AddrAfter(old(doc), exposed).value
    {
      if exposed {
        SetAddrIs(doc);
        var edited := Set(doc, AddrPath(), ADMIN_ADDR);
        if edited.Err? {
          return false;
        }
        doc := edited.value;
        return true;
      }
      ClearAddrIs(doc);
      doc := Remove(doc, AddrPath());
      var config := GetMap(doc, ConfigPath());
      if config.Err? {
        return false;
      }
      if config.value.Some? && |config.value.value| == 0 {
        doc := Remove(doc, ConfigPath());
      }
      var raw := GetMap(doc, RawConfigPath());
      if raw.Err? {
        return false;
      }
      if raw.value.Some? && |raw.value.value| == 0 {
        doc := Remove(doc, RawConfigPath());
      }
      return true;
    }

    method ApplyAdminServicePort(exposed: bool) returns (ok: bool)
      modifies this
      ensures ok <==> ServicePortAfter(old(doc), exposed).Ok?
      ensures ok ==> doc == ServicePortAfter(old(doc), exposed).value
    {
      var ports := GetList(doc, PortsPath());
      ServicePortIs(doc, exposed);
      if ports.Err? {
        return false;
      }
      var kept: seq<Value> := [];
      for i := 0 to |ports.value|
        invariant kept == OtherPorts(ports.value[..i])
      {
        var raw := ports.value[i];
        assert ports.value[..i + 1][..i] == ports.value[..i];
        if raw.Obj? && "port" in raw.fields && raw.fields["port"] == Int(ADMIN_PORT) {
          continue;
        }
        kept := kept + [raw];
      }
      assert ports.value[..|ports.value|] == ports.value;
      if exposed {
        kept := kept + [ADMIN_PORT_ENTRY];
      }
      if |kept| == 0 {
        doc := Remove(doc, PortsPath());
        return true;
      }
      var edited := Set(doc, PortsPath(), List(kept));
      if edited.Err? {
        return false;
      }
      doc := edited.value;
      return true;
    }

    method ApplyAdminInterface(exposed: bool) returns (ok: bool)
      modifies this
      ensures ok <==> InterfaceAfter(old(doc), exposed).Ok?
      ensures ok ==> doc == InterfaceAfter(old(doc), exposed).value
    {
      ok := ApplyAdminAddr(exposed);
      if ok {
        ok := ApplyAdminServicePort(exposed);
      }
    }
  }

  // ----- The edits, level by level -----

  /** What a result inside a container makes of the container. */
  function Lift(m: Fields, k: string, inner: Result<Option<Value>, ()>): Result<Fields, ()> {
    match inner
    case Err(e) => Err(e)
    case Ok(v) => Ok(Put(m, k, v))
  }

  lemma SetLeafIs(c: Fields)
    ensures Set(map[], Leaf("adminAddr"), ADMIN_ADDR) == Ok(map["adminAddr" := ADMIN_ADDR])
    ensures Set(c, Leaf("adminAddr"), ADMIN_ADDR) == Ok(c["adminAddr" := ADMIN_ADDR])
  {
  }

  lemma SetConfigIs(r: Fields)
    ensures Set(r, Into("config", Leaf("adminAddr")), ADMIN_ADDR) ==
            Lift(r, "config", ConfigAfter(Lookup(r, "config"), true))
  {
    SetLeafIs(map[]);
  }

  lemma SetRawConfigIs(s: Fields)
    ensures Set(s, Into("rawConfig", Into("config", Leaf("adminAddr"))), ADMIN_ADDR) ==
            Lift(s, "rawConfig", RawConfigAfter(Lookup(s, "rawConfig"), true))
  {
    SetConfigIs(map[]);
    match Lookup(s, "rawConfig") {
      case Some(Obj(r)) =>
        SetConfigIs(r);
        if ConfigAfter(Lookup(r, "config"), true).Ok? {
          assert "config" in Put(r, "config", ConfigAfter(Lookup(r, "config"), true).value);
        }
      case _ =>
    }
  }

  lemma SetAddrIs(m: Fields)
    ensures Set(m, AddrPath(), ADMIN_ADDR) == AddrAfter(m, true)
  {
    SetRawConfigIs(map[]);
    match Lookup(m, "spec") {
      case Some(Obj(s)) => SetRawConfigIs(s);
      case _ =>
    }
  }

  function Pruned(m: Fields, p: Path): Result<Fields, ()> {
    match GetMap(m, p)
    case Err(e) => Err(e)
    case Ok(None) => Ok(m)
    case Ok(Some(n)) => Ok(if n == map[] then Remove(m, p) else m)
  }

  function Within(m: Fields, k: string, inner: Result<Fields, ()>): Result<Fields, ()> {
    match inner
    case Err(e) => Err(e)
    case Ok(n) => Ok(m[k := Obj(n)])
  }

  lemma OverwriteField(m: Fields, k: string, a: Value, b: Value)
    ensures m[k := a][k := b] == m[k := b]
    ensures Lookup(m[k := a], k) == Some(a)
  {
  }

  lemma GetWithin(m: Fields, k: string, n: Fields, rest: Path)
    ensures GetMap(m[k := Obj(n)], Into(k, rest)) == GetMap(n, rest)
    ensures Remove(m[k := Obj(n)], Into(k, rest)) == m[k := Obj(Remove(n, rest))]
  {
    OverwriteField(m, k, Obj(n), Obj(Remove(n, rest)));
    assert Get(m[k := Obj(n)], Into(k, rest)) == Get(n, rest);
  }

  lemma PrunedWithin(m: Fields, k: string, n: Fields, rest: Path)
    ensures Pruned(m[k := Obj(n)], Into(k, rest)) == Within(m, k, Pruned(n, rest))
  {
    GetWithin(m, k, n, rest);
  }

  function ClearAddr(m: Fields): Result<Fields, ()> {
    match Pruned(Remove(m, AddrPath()), ConfigPath())
    case Err(e) => Err(e)
    case Ok(n) => Pruned(n, RawConfigPath())
  }

  lemma ClearConfigIs(r: Fields)
    ensures Pruned(Remove(r, Into("config", Leaf("adminAddr"))), Leaf("config")) ==
            Lift(r, "config", ConfigAfter(Lookup(r, "config"), false))
  {
    match Lookup(r, "config") {
      case Some(Obj(c)) =>
        var left := c - {"adminAddr"};
        assert Remove(c, Leaf("adminAddr")) == left;
        OverwriteField(r, "config", Obj(left), Obj(left));
        assert r["config" := Obj(left)] - {"config"} == r - {"config"};
      case None => assert r - {"config"} == r;
      case _ =>
    }
  }

  lemma ClearRawConfigIs(s: Fields)
    ensures var removed := Remove(s, Into("rawConfig", Into("config", Leaf("adminAddr"))));
            var cleared := Pruned(removed, Into("rawConfig", Leaf("config")));
            (match cleared case Err(e) => Err(e) case Ok(n) => Pruned(n, Leaf("rawConfig"))) ==
            Lift(s, "rawConfig", RawConfigAfter(Lookup(s, "rawConfig"), false))
  {
    match Lookup(s, "rawConfig") {
      case Some(Obj(r)) =>
        PrunedWithin(s, "rawConfig", Remove(r, Into("config", Leaf("adminAddr"))), Leaf("config"));
        ClearConfigIs(r);
        match ConfigAfter(Lookup(r, "config"), false) {
          case Ok(c) =>
            var left := Put(r, "config", c);
            OverwriteField(s, "rawConfig", Obj(left), Obj(left));
            assert s["rawConfig" := Obj(left)] - {"rawConfig"} == s - {"rawConfig"};
          case Err(_) =>
        }
      case None => assert s - {"rawConfig"} == s;
      case _ =>
    }
  }

  lemma ClearAddrIs(m: Fields)
    ensures ClearAddr(m) == AddrAfter(m, false)
  {
    match Lookup(m, "spec") {
      case Some(Obj(s)) =>
        var removed := Remove(s, Into("rawConfig", Into("config", Leaf("adminAddr"))));
        PrunedWithin(m, "spec", removed, Into("rawConfig", Leaf("config")));
        ClearRawConfigIs(s);
        match Pruned(removed, Into("rawConfig", Leaf("config"))) {
          case Ok(n) => PrunedWithin(m, "spec", n, Leaf("rawConfig"));
          case Err(_) =>
        }
      case _ =>
    }
  }

  function PortsEdited(m: Fields, p: Path, exposed: bool): Result<Fields, ()> {
    match GetList(m, p)
    case Err(e) => Err(e)
    case Ok(xs) =>
      var kept := OtherPorts(xs) + if exposed then [ADMIN_PORT_ENTRY] else [];
      if kept == [] then Ok(Remove(m, p)) else Set(m, p, List(kept))
  }

  lemma PortsEditedWithin(m: Fields, k: string, rest: Path, exposed: bool)
    ensures PortsEdited(m, Into(k, rest), exposed) ==
            if k in m && m[k].Obj? then Within(m, k, PortsEdited(m[k].fields, rest, exposed))
            else if k in m && !m[k].Null? then Err(())
            else if !exposed then Ok(m)
            else if k in m then Err(())
            else Within(m, k, Set(map[], rest, List([ADMIN_PORT_ENTRY])))
  {
    assert OtherPorts([]) + [ADMIN_PORT_ENTRY] == [ADMIN_PORT_ENTRY];
    if k in m && m[k].Obj? {
      assert Get(m, Into(k, rest)) == Get(m[k].fields, rest);
    }
  }

  lemma PortsEditedIs(w: Fields, exposed: bool)
    ensures PortsEdited(w, Leaf("ports"), exposed) == Lift(w, "ports", PortsAfter(Lookup(w, "ports"), exposed))
  {
    assert OtherPorts([]) + [ADMIN_PORT_ENTRY] == [ADMIN_PORT_ENTRY];
    match Lookup(w, "ports") {
      case Some(List(xs)) => assert OtherPorts(xs) + [] == OtherPorts(xs);
      case None => assert w - {"ports"} == w;
      case _ =>
    }
  }

  lemma SpecPortsEditedIs(v: Fields, exposed: bool)
    ensures PortsEdited(v, Into("spec", Leaf("ports")), exposed) ==
            Lift(v, "spec", ServiceSpecAfter(Lookup(v, "spec"), exposed))
  {
    PortsEditedWithin(v, "spec", Leaf("ports"), exposed);
    match Lookup(v, "spec") {
      case Some(Obj(w)) => PortsEditedIs(w, exposed);
      case Some(Null) => assert v["spec" := Null] == v;
      case None => assert v - {"spec"} == v;
      case _ =>
    }
  }

  lemma ServicePortsEditedIs(s: Fields, exposed: bool)
    ensures PortsEdited(s, Into("service", Into("spec", Leaf("ports"))), exposed) ==
            Lift(s, "service", ServiceAfter(Lookup(s, "service"), exposed))
  {
    PortsEditedWithin(s, "service", Into("spec", Leaf("ports")), exposed);
    match Lookup(s, "service") {
      case Some(Obj(v)) => SpecPortsEditedIs(v, exposed);
      case Some(Null) => assert s["service" := Null] == s;
      case None => assert s - {"service"} == s;
      case _ =>
    }
  }

  lemma ServicePortIs(m: Fields, exposed: bool)
    ensures PortsEdited(m, PortsPath(), exposed) == ServicePortAfter(m, exposed)
  {
    PortsEditedWithin(m, "spec", Into("service", Into("spec", Leaf("ports"))), exposed);
    match Lookup(m, "spec") {
      case Some(Obj(s)) => ServicePortsEditedIs(s, exposed);
      case _ =>
    }
  }

  // ----- What the edits promise about paths -----

  lemma {:induction false} SetReadsBack(m: Fields, p: Path, v: Value)
    ensures Set(m, p, v).Ok? ==> Get(Set(m, p, v).value, p) == Ok(Some(v))
    decreases p
  {
    if p.Into? {
      if p.key !in m {
        SetReadsBack(map[], p.rest, v);
      } else if m[p.key].Obj? {
        SetReadsBack(m[p.key].fields, p.rest, v);
      }
    }
  }

  /** Neither path leads through the other. */
  predicate Apart(p: Path, q: Path) {
    p.key != q.key || (p.Into? && q.Into? && Apart(p.rest, q.rest))
  }

  /** The first path does not lead to the second, or to the same place. */
  predicate NotAbove(q: Path, p: Path) {
    q.key != p.key || (q.Into? && (p.Leaf? || NotAbove(q.rest, p.rest)))
  }

  lemma {:induction false} SetKeepsTheRest(m: Fields, p: Path, v: Value, q: Path)
    requires Apart(p, q)
    ensures Set(m, p, v).Ok? ==> Get(Set(m, p, v).value, q) == Get(m, q)
    decreases p
  {
    if p.Into? && q.Into? && p.key == q.key {
      if p.key !in m {
        SetKeepsTheRest(map[], p.rest, v, q.rest);
        EmptyReadsNothing(q.rest);
      } else if m[p.key].Obj? {
        SetKeepsTheRest(m[p.key].fields, p.rest, v, q.rest);
      }
    }
  }

  lemma EmptyReadsNothing(q: Path)
    ensures Get(map[], q) == Ok(None)
  {
  }

  lemma {:induction false} RemoveKeepsTheRest(m: Fields, p: Path, q: Path)
    requires Apart(p, q)
    ensures Get(Remove(m, p), q) == Get(m, q)
    decreases p
  {
    if p.Into? && q.Into? && p.key == q.key && p.key in m && m[p.key].Obj? {
      RemoveKeepsTheRest(m[p.key].fields, p.rest, q.rest);
    }
  }

  /** Pruning an empty container is invisible to every path that does not lead to it. */
  lemma {:induction false} PrunedKeepsTheRest(m: Fields, p: Path, q: Path)
    requires NotAbove(q, p) && Pruned(m, p).Ok?
    ensures Get(Pruned(m, p).value, q) == Get(m, q)
    decreases p
  {
    match p {
      case Leaf(k) =>
        if q.key == k && Lookup(m, k) == Some(Obj(map[])) {
          EmptyReadsNothing(q.rest);
        }
      case Into(k, rest) =>
        if k in m && m[k].Obj? {
          assert m[k := m[k]] == m;
          PrunedWithin(m, k, m[k].fields, rest);
          if q.key == k {
            PrunedKeepsTheRest(m[k].fields, rest, q.rest);
          }
        }
    }
  }

  /** Switching the interface on or off leaves what every other path reads as it was. */
  lemma EditsAreFramed(m: Fields, exposed: bool, q: Path)
    requires InterfaceAfter(m, exposed).Ok?
    requires Apart(AddrPath(), q) && Apart(PortsPath(), q)
    ensures Get(InterfaceAfter(m, exposed).value, q) == Get(m, q)
  {
    AddrEditFramed(m, exposed, q);
    var n := AddrAfter(m, exposed).value;
    ServicePortIs(n, exposed);
    RemoveKeepsTheRest(n, PortsPath(), q);
    var kept := OtherPorts(GetList(n, PortsPath()).value) + if exposed then [ADMIN_PORT_ENTRY] else [];
    SetKeepsTheRest(n, PortsPath(), List(kept), q);
  }

  lemma AddrEditFramed(m: Fields, exposed: bool, q: Path)
    requires AddrAfter(m, exposed).Ok? && Apart(AddrPath(), q)
    ensures Get(AddrAfter(m, exposed).value, q) == Get(m, q)
  {
    if exposed {
      SetAddrIs(m);
      SetKeepsTheRest(m, AddrPath(), ADMIN_ADDR, q);
    } else {
      ClearAddrIs(m);
      RemoveKeepsTheRest(m, AddrPath(), q);
      var removed := Remove(m, AddrPath());
      PrunedKeepsTheRest(removed, ConfigPath(), q);
      PrunedKeepsTheRest(Pruned(removed, ConfigPath()).value, RawConfigPath(), q);
    }
  }

  // ----- The ports -----

  predicate OnlyAdminPortAt(ports: seq<Value>, i: nat) {
    i < |ports| && IsAdminPort(ports[i]) && NoAdminPort(ports[..i]) && NoAdminPort(ports[i + 1..])
  }

  ghost predicate OneAdminPort(ports: seq<Value>) {
    exists i :: OnlyAdminPortAt(ports, i)
  }

  predicate NoAdminPort(ports: seq<Value>) {
    forall i | 0 <= i < |ports| :: !IsAdminPort(ports[i])
  }

  lemma {:induction false} OtherPortsAre(ports: seq<Value>)
    ensures NoAdminPort(OtherPorts(ports))
    ensures OtherPorts(ports) == ports <==> NoAdminPort(ports)
    ensures |OtherPorts(ports)| <= |ports|
  {
    if ports != [] {
      var n := |ports| - 1;
      OtherPortsAre(ports[..n]);
      assert ports == ports[..n] + [ports[n]];
    }
  }

  /** Every port is kept but those numbered 15000, whatever else they say. */
  lemma {:induction false} KeptPorts(ports: seq<Value>, v: Value)
    ensures v in OtherPorts(ports) <==>
            v in ports && !(v.Obj? && "port" in v.fields && v.fields["port"] == Int(15000))
  {
    if ports != [] {
      var n := |ports| - 1;
      KeptPorts(ports[..n], v);
      assert ports == ports[..n] + [ports[n]];
    }
  }

  /** And they keep their order: what is kept of two lists is kept of their join. */
  lemma {:induction false} KeptInOrder(a: seq<Value>, b: seq<Value>)
    ensures OtherPorts(a + b) == OtherPorts(a) + OtherPorts(b)
  {
    if b == [] {
      assert a + b == a;
    } else {
      var n := |b| - 1;
      KeptInOrder(a, b[..n]);
      assert (a + b)[..|a + b| - 1] == a + b[..n];
    }
  }

  lemma OtherPortsAgain(ports: seq<Value>)
    ensures OtherPorts(OtherPorts(ports)) == OtherPorts(ports)
    ensures OtherPorts(OtherPorts(ports) + [ADMIN_PORT_ENTRY]) == OtherPorts(ports)
  {
    var others := OtherPorts(ports);
    OtherPortsAre(ports);
    OtherPortsAre(others);
    assert IsAdminPort(ADMIN_PORT_ENTRY);
    assert (others + [ADMIN_PORT_ENTRY])[..|others|] == others;
  }

  lemma PortEditReads(n: Fields, exposed: bool)
    requires ServicePortAfter(n, exposed).Ok?
    ensures GetList(n, PortsPath()).Ok?
    ensures var kept := OtherPorts(GetList(n, PortsPath()).value) + if exposed then [ADMIN_PORT_ENTRY] else [];
            GetList(ServicePortAfter(n, exposed).value, PortsPath()) == Ok(kept)
  {
    ServicePortIs(n, exposed);
    RemovedReadsAbsent(n, PortsPath());
    var kept := OtherPorts(GetList(n, PortsPath()).value) + if exposed then [ADMIN_PORT_ENTRY] else [];
    SetReadsBack(n, PortsPath(), List(kept));
  }

  lemma PortEditKeepsAddr(n: Fields, exposed: bool)
    requires ServicePortAfter(n, exposed).Ok?
    ensures Get(ServicePortAfter(n, exposed).value, AddrPath()) == Get(n, AddrPath())
  {
    ServicePortIs(n, exposed);
    RemoveKeepsTheRest(n, PortsPath(), AddrPath());
    var kept := OtherPorts(GetList(n, PortsPath()).value) + if exposed then [ADMIN_PORT_ENTRY] else [];
    SetKeepsTheRest(n, PortsPath(), List(kept), AddrPath());
  }

  /**
   Switched on: the bind address is set and exactly one port is the admin port, after
   all the others in their order.
   */
  lemma SwitchedOn(m: Fields)
    requires InterfaceAfter(m, true).Ok?
    ensures GetList(m, PortsPath()).Ok?
    ensures var x := InterfaceAfter(m, true).value;
            && Get(x, AddrPath()) == Ok(Some(Str("[::]:15000")))
            && GetList(x, PortsPath()) == Ok(OtherPorts(GetList(m, PortsPath()).value) + [ADMIN_PORT_ENTRY])
            && OneAdminPort(GetList(x, PortsPath()).value)
            && ADMIN_PORT_ENTRY == Obj(map["name" := Str("admin"), "port" := Int(15000),
                                           "protocol" := Str("TCP"), "targetPort" := Int(15000)])
  {
    var n := AddrAfter(m, true).value;
    AddrEditFramed(m, true, PortsPath());
    SetAddrIs(m);
    SetReadsBack(m, AddrPath(), ADMIN_ADDR);
    PortEditReads(n, true);
    PortEditKeepsAddr(n, true);
    OneAppended(GetList(n, PortsPath()).value);
  }

  lemma OneAppended(ports: seq<Value>)
    ensures OneAdminPort(OtherPorts(ports) + [ADMIN_PORT_ENTRY])
  {
    OtherPortsAre(ports);
    var others := OtherPorts(ports);
    var all := others + [ADMIN_PORT_ENTRY];
    assert all[..|others|] == others && all[|others| + 1..] == [];
    assert OnlyAdminPortAt(all, |others|);
  }

  /** Switched off: neither half is left behind, and the other ports keep their order. */
  lemma SwitchedOff(m: Fields)
    requires InterfaceAfter(m, false).Ok?
    ensures GetList(m, PortsPath()).Ok?
    ensures var x := InterfaceAfter(m, false).value;
            && Get(x, AddrPath()) == Ok(None)
            && GetList(x, PortsPath()) == Ok(OtherPorts(GetList(m, PortsPath()).value))
            && NoAdminPort(GetList(x, PortsPath()).value)
  {
    AddrCleared(m);
    PortEditKeepsAddr(AddrAfter(m, false).value, false);
    PortsSwitchedOff(m);
  }

  lemma PortsSwitchedOff(m: Fields)
    requires InterfaceAfter(m, false).Ok?
    ensures GetList(m, PortsPath()).Ok?
    ensures GetList(InterfaceAfter(m, false).value, PortsPath()) == Ok(OtherPorts(GetList(m, PortsPath()).value))
    ensures NoAdminPort(OtherPorts(GetList(m, PortsPath()).value))
  {
    AddrEditFramed(m, false, PortsPath());
    PortEditReads(AddrAfter(m, false).value, false);
    OtherPortsAre(GetList(m, PortsPath()).value);
  }

  lemma {:induction false} RemovedReadsAbsent(m: Fields, p: Path)
    requires Get(m, p).Ok?
    ensures Get(Remove(m, p), p) == Ok(None)
    decreases p
  {
    if p.Into? && p.key in m && m[p.key].Obj? {
      RemovedReadsAbsent(m[p.key].fields, p.rest);
    }
  }

  lemma AddrCleared(m: Fields)
    requires AddrAfter(m, false).Ok?
    ensures Get(AddrAfter(m, false).value, AddrPath()) == Ok(None)
  {
    match Lookup(m, "spec") {
      case Some(Obj(s)) =>
        match Lookup(s, "rawConfig") {
          case Some(Obj(r)) => RawConfigCleared(r);
          case _ =>
        }
      case _ =>
    }
  }

  lemma RawConfigCleared(r: Fields)
    requires ConfigAfter(Lookup(r, "config"), false).Ok?
    ensures var cleared := Put(r, "config", ConfigAfter(Lookup(r, "config"), false).value);
            Get(cleared, Into("config", Leaf("adminAddr"))) == Ok(None)
  {
  }

  // ----- Editing twice -----

  lemma ConfigAgain(config: Option<Value>, first: bool, second: bool)
    requires ConfigAfter(config, first).Ok?
    ensures ConfigAfter(ConfigAfter(config, first).value, second) == ConfigAfter(config, second)
  {
    var none: Fields := map[];
    var c: Fields := if config.None? then none else config.value.fields;
    var cleared := c - {"adminAddr"};
    assert c["adminAddr" := ADMIN_ADDR]["adminAddr" := ADMIN_ADDR] == c["adminAddr" := ADMIN_ADDR];
    assert c["adminAddr" := ADMIN_ADDR] - {"adminAddr"} == cleared;
    assert cleared - {"adminAddr"} == cleared;
    assert cleared["adminAddr" := ADMIN_ADDR] == c["adminAddr" := ADMIN_ADDR];
    assert none["adminAddr" := ADMIN_ADDR] == map["adminAddr" := ADMIN_ADDR];
  }

  lemma PutPut(m: Fields, k: string, a: Option<Value>, b: Option<Value>)
    ensures Put(Put(m, k, a), k, b) == Put(m, k, b)
    ensures Lookup(Put(m, k, a), k) == a
    ensures a == Lookup(m, k) <==> Put(m, k, a) == m
  {
    if Put(m, k, a) == m {
      assert Lookup(m, k) == Lookup(Put(m, k, a), k);
    }
  }

  lemma RawConfigAgain(raw: Option<Value>, first: bool, second: bool)
    requires RawConfigAfter(raw, first).Ok?
    ensures RawConfigAfter(RawConfigAfter(raw, first).value, second) == RawConfigAfter(raw, second)
  {
    var r: Fields := if raw.None? then map[] else raw.value.fields;
    var config := Lookup(r, "config");
    RawConfigOf(raw, first);
    RawConfigOf(raw, second);
    var after := ConfigAfter(config, first).value;
    ConfigAgain(config, first, second);
    PutPut(r, "config", after, ConfigAfter(config, second).value);
    RawConfigOf(RawConfigAfter(raw, first).value, second);
    if Put(r, "config", after) == map[] {
      assert Lookup(map[], "config") == after;
    }
  }

  /** A missing rawConfig is edited as an empty one. */
  lemma RawConfigOf(raw: Option<Value>, exposed: bool)
    requires raw.Some? ==> raw.value.Obj?
    ensures var r: Fields := if raw.None? then map[] else raw.value.fields;
            RawConfigAfter(raw, exposed) ==
            (match ConfigAfter(Lookup(r, "config"), exposed)
             case Err(e) => Err(e)
             case Ok(c) => Ok(if Put(r, "config", c) == map[] then None else Some(Obj(Put(r, "config", c)))))
  {
    if raw.None? {
      var added: Fields := map["config" := Obj(map["adminAddr" := ADMIN_ADDR])];
      var none: Fields := map[];
      assert "config" in added;
      assert none["config" := added["config"]] == added;
      assert none - {"config"} == none;
    }
  }

  lemma PortsAgain(ports: Option<Value>, first: bool, second: bool)
    requires PortsAfter(ports, first).Ok?
    ensures PortsAfter(PortsAfter(ports, first).value, second) == PortsAfter(ports, second)
  {
    var xs := if ports.Some? then ports.value.items else [];
    PortsOf(ports, first);
    PortsOf(ports, second);
    PortsOf(PortsAfter(ports, first).value, second);
    OtherPortsAgain(xs);
    assert OtherPorts([]) == [];
  }

  /** Missing ports are edited as an empty list. */
  lemma PortsOf(ports: Option<Value>, exposed: bool)
    requires ports.Some? ==> ports.value.List?
    ensures var others := OtherPorts(if ports.Some? then ports.value.items else []);
            PortsAfter(ports, exposed) ==
            Ok(if exposed then Some(List(others + [ADMIN_PORT_ENTRY]))
               else if others == [] then None
               else Some(List(others)))
  {
    if ports.None? {
      assert OtherPorts([]) + [ADMIN_PORT_ENTRY] == [ADMIN_PORT_ENTRY];
    }
  }

  // ----- A document with every container in place -----

  ghost predicate Deep(m: Fields) {
    && "spec" in m && m["spec"].Obj?
    && var s := m["spec"].fields;
       && "service" in s && s["service"].Obj?
       && var v := s["service"].fields;
          "spec" in v && v["spec"].Obj?
  }

  ghost function ServiceSpecOf(m: Fields): Fields
    requires Deep(m)
  {
    m["spec"].fields["service"].fields["spec"].fields
  }

  ghost function RawConfigIn(m: Fields): Option<Value>
    requires Deep(m)
  {
    Lookup(m["spec"].fields, "rawConfig")
  }

  ghost function PortsIn(m: Fields): Option<Value>
    requires Deep(m)
  {
    Lookup(ServiceSpecOf(m), "ports")
  }

  ghost function Rebuilt(m: Fields, raw: Option<Value>, ports: Option<Value>): Fields
    requires Deep(m)
  {
    var s := m["spec"].fields;
    var v := s["service"].fields;
    var w := v["spec"].fields;
    m["spec" := Obj(Put(s, "rawConfig", raw)["service" := Obj(v["spec" := Obj(Put(w, "ports", ports))])])]
  }

  lemma DeepEdit(m: Fields, exposed: bool)
    requires Deep(m)
    ensures var raw, ports := RawConfigAfter(RawConfigIn(m), exposed), PortsAfter(PortsIn(m), exposed);
            InterfaceAfter(m, exposed) ==
            if raw.Ok? && ports.Ok? then Ok(Rebuilt(m, raw.value, ports.value)) else Err(())
  {
    var raw := RawConfigAfter(RawConfigIn(m), exposed);
    if raw.Ok? {
      var s := Put(m["spec"].fields, "rawConfig", raw.value);
      OverwriteField(m, "spec", Obj(s), AfterPorts(s, exposed));
    }
  }

  ghost function AfterPorts(s: Fields, exposed: bool): Value {
    match ServiceAfter(Lookup(s, "service"), exposed)
    case Err(_) => Null
    case Ok(service) => Obj(Put(s, "service", service))
  }

  lemma RebuiltParts(m: Fields, raw: Option<Value>, ports: Option<Value>)
    requires Deep(m)
    ensures var x := Rebuilt(m, raw, ports);
            Deep(x) && RawConfigIn(x) == raw && PortsIn(x) == ports
            && ServiceSpecOf(x) == Put(ServiceSpecOf(m), "ports", ports)
  {
  }

  lemma RebuiltTwice(m: Fields, raw: Option<Value>, ports: Option<Value>, raw': Option<Value>, ports': Option<Value>)
    requires Deep(m)
    ensures Deep(Rebuilt(m, raw, ports))
    ensures Rebuilt(Rebuilt(m, raw, ports), raw', ports') == Rebuilt(m, raw', ports')
  {
    var s := m["spec"].fields;
    var v := s["service"].fields;
    var w := v["spec"].fields;
    PutPut(w, "ports", ports, ports');
    var a, b := Obj(Put(w, "ports", ports)), Obj(Put(w, "ports", ports'));
    OverwriteField(v, "spec", a, b);
    var c, d := Obj(v["spec" := a]), Obj(v["spec" := b]);
    assert Put(Put(s, "rawConfig", raw)["service" := c], "rawConfig", raw')["service" := d] ==
           Put(s, "rawConfig", raw')["service" := d];
    var first, second := Put(s, "rawConfig", raw)["service" := c], Put(s, "rawConfig", raw')["service" := d];
    OverwriteField(m, "spec", Obj(first), Obj(second));
  }

  lemma RebuiltIsSame(m: Fields, raw: Option<Value>, ports: Option<Value>)
    requires Deep(m)
    ensures Rebuilt(m, raw, ports) == m <==> raw == RawConfigIn(m) && ports == PortsIn(m)
  {
    RebuiltParts(m, raw, ports);
    if raw == RawConfigIn(m) && ports == PortsIn(m) {
      var s := m["spec"].fields;
      var v := s["service"].fields;
      var w := v["spec"].fields;
      PutPut(w, "ports", ports, ports);
      PutPut(s, "rawConfig", raw, raw);
      assert v["spec" := Obj(w)] == v;
      assert s["service" := Obj(v)] == s;
      assert m["spec" := Obj(s)] == m;
    }
  }

  /** Whatever was switched before, a document with its containers ends where the last switch alone would leave it. */
  lemma DeepEditAgain(m: Fields, first: bool, second: bool)
    requires Deep(m) && InterfaceAfter(m, first).Ok?
    ensures Deep(InterfaceAfter(m, first).value)
    ensures ServiceSpecOf(InterfaceAfter(m, first).value) ==
            Put(ServiceSpecOf(m), "ports", PortsIn(InterfaceAfter(m, first).value))
    ensures InterfaceAfter(InterfaceAfter(m, first).value, second) == InterfaceAfter(m, second)
  {
    DeepEdit(m, first);
    DeepEdit(m, second);
    var raw, ports := RawConfigAfter(RawConfigIn(m), first).value, PortsAfter(PortsIn(m), first).value;
    RebuiltParts(m, raw, ports);
    DeepEdit(Rebuilt(m, raw, ports), second);
    RawConfigAgain(RawConfigIn(m), first, second);
    PortsAgain(PortsIn(m), first, second);
    if InterfaceAfter(m, second).Ok? {
      RebuiltTwice(m, raw, ports, RawConfigAfter(raw, second).value, PortsAfter(ports, second).value);
    }
  }

  /** The document with the containers switching on would create, and nothing in them. */
  ghost function Contained(m: Fields): Fields {
    var s := FieldsOr(Lookup(m, "spec"));
    var v := FieldsOr(Lookup(s, "service"));
    var w := FieldsOr(Lookup(v, "spec"));
    m["spec" := Obj(s["service" := Obj(v["spec" := Obj(w)])])]
  }

  ghost function FieldsOr(v: Option<Value>): Fields {
    if v.Some? && v.value.Obj? then v.value.fields else map[]
  }

  lemma SwitchOnShape(m: Fields)
    requires "spec" in m ==> m["spec"].Obj?
    ensures var s := FieldsOr(Lookup(m, "spec"));
            var raw, service := RawConfigAfter(Lookup(s, "rawConfig"), true), ServiceAfter(Lookup(s, "service"), true);
            InterfaceAfter(m, true) ==
            if raw.Ok? && service.Ok?
            then Ok(m["spec" := Obj(Put(Put(s, "rawConfig", raw.value), "service", service.value))])
            else Err(())
  {
    var s := FieldsOr(Lookup(m, "spec"));
    var raw := RawConfigAfter(Lookup(s, "rawConfig"), true);
    if raw.Ok? {
      var t := Put(s, "rawConfig", raw.value);
      assert AddrAfter(m, true) == Ok(m["spec" := Obj(t)]);
      OverwriteField(m, "spec", Obj(t), AfterPorts(t, true));
    }
  }

  lemma ContainedService(service: Option<Value>)
    requires ServiceAfter(service, true).Ok?
    ensures var v := FieldsOr(service);
            var w := FieldsOr(Lookup(v, "spec"));
            ServiceAfter(Some(Obj(v["spec" := Obj(w)])), true) == ServiceAfter(service, true)
  {
    var v := FieldsOr(service);
    var w := FieldsOr(Lookup(v, "spec"));
    var after := ServiceSpecAfter(Some(Obj(w)), true);
    assert after == ServiceSpecAfter(Lookup(v, "spec"), true);
    OverwriteField(v, "spec", Obj(w), after.value.value);
  }

  lemma ContainedIsEnough(m: Fields)
    requires InterfaceAfter(m, true).Ok?
    ensures Deep(Contained(m))
    ensures InterfaceAfter(Contained(m), true) == InterfaceAfter(m, true)
    ensures Deep(m) <==> Contained(m) == m
  {
    if Deep(m) {
      ContainedAlready(m);
    } else {
      ContainedBySwitchingOn(m);
    }
  }

  lemma ContainedAlready(m: Fields)
    requires Deep(m)
    ensures Contained(m) == m
  {
    var s := m["spec"].fields;
    var v := s["service"].fields;
    assert v["spec" := v["spec"]] == v;
    assert s["service" := s["service"]] == s;
    assert m["spec" := m["spec"]] == m;
  }

  lemma ContainedBySwitchingOn(m: Fields)
    requires InterfaceAfter(m, true).Ok?
    ensures InterfaceAfter(Contained(m), true) == InterfaceAfter(m, true)
  {
    var s := FieldsOr(Lookup(m, "spec"));
    var v := FieldsOr(Lookup(s, "service"));
    var inner := Obj(v["spec" := Obj(FieldsOr(Lookup(v, "spec")))]);
    SwitchOnShape(m);
    SwitchOnShape(Contained(m));
    ContainedService(Lookup(s, "service"));
    var raw := RawConfigAfter(Lookup(s, "rawConfig"), true).value;
    var service := ServiceAfter(Lookup(s, "service"), true).value;
    PutOverwritten(s, inner, raw, service);
    OverwriteField(m, "spec", Obj(s["service" := inner]), Obj(Put(Put(s, "rawConfig", raw), "service", service)));
  }

  lemma PutOverwritten(s: Fields, inner: Value, raw: Option<Value>, service: Option<Value>)
    ensures Lookup(s["service" := inner], "rawConfig") == Lookup(s, "rawConfig")
    ensures Put(Put(s["service" := inner], "rawConfig", raw), "service", service) ==
            Put(Put(s, "rawConfig", raw), "service", service)
  {
  }

  // ----- Main results -----

  /** Enabling twice is enabling once. */
  lemma EnablingTwice(m: Fields)
    requires InterfaceAfter(m, true).Ok?
    ensures InterfaceAfter(InterfaceAfter(m, true).value, true) == InterfaceAfter(m, true)
  {
    ContainedIsEnough(m);
    DeepEditAgain(Contained(m), true, true);
  }

  /**
   What a caller can check beforehand: the Service spec is there, the interface is not,
   and nothing on its paths is an empty container.
   */
  ghost predicate Reversible(m: Fields) {
    && GetMap(m, Into("spec", Into("service", Leaf("spec")))).Ok?
    && GetMap(m, Into("spec", Into("service", Leaf("spec")))).value.Some?
    && Get(m, AddrPath()) == Ok(None)
    && GetMap(m, ConfigPath()) != Ok(Some(map[]))
    && GetMap(m, RawConfigPath()) != Ok(Some(map[]))
    && Get(m, PortsPath()) != Ok(Some(List([])))
    && GetList(m, PortsPath()).Ok? && NoAdminPort(GetList(m, PortsPath()).value)
  }

  lemma ReversibleReads(m: Fields)
    requires InterfaceAfter(m, true).Ok?
    ensures var serviceSpec := GetMap(m, Into("spec", Into("service", Leaf("spec"))));
            Deep(m) <==> (serviceSpec.Ok? && serviceSpec.value.Some?)
  {
  }

  lemma RawConfigRestored(s: Fields)
    requires RawConfigAfter(Lookup(s, "rawConfig"), false).Ok?
    ensures RawConfigAfter(Lookup(s, "rawConfig"), false).value == Lookup(s, "rawConfig") <==>
            && Get(s, Into("rawConfig", Into("config", Leaf("adminAddr")))) == Ok(None)
            && GetMap(s, Into("rawConfig", Leaf("config"))) != Ok(Some(map[]))
            && GetMap(s, Leaf("rawConfig")) != Ok(Some(map[]))
  {
    match Lookup(s, "rawConfig") {
      case Some(Obj(r)) =>
        var config := ConfigAfter(Lookup(r, "config"), false);
        PutPut(r, "config", config.value, None);
        ConfigRestored(r);
      case _ =>
    }
  }

  lemma ConfigRestored(r: Fields)
    requires ConfigAfter(Lookup(r, "config"), false).Ok?
    ensures ConfigAfter(Lookup(r, "config"), false).value == Lookup(r, "config") <==>
            && Get(r, Into("config", Leaf("adminAddr"))) == Ok(None)
            && GetMap(r, Leaf("config")) != Ok(Some(map[]))
  {
    match Lookup(r, "config") {
      case Some(Obj(c)) =>
        var cleared := c - {"adminAddr"};
        assert "adminAddr" !in cleared;
        if "adminAddr" !in c {
          assert cleared == c;
        }
      case _ =>
    }
  }

  lemma PortsRestored(w: Fields)
    requires PortsAfter(Lookup(w, "ports"), false).Ok?
    ensures GetList(w, Leaf("ports")).Ok?
    ensures PortsAfter(Lookup(w, "ports"), false).value == Lookup(w, "ports") <==>
            Get(w, Leaf("ports")) != Ok(Some(List([]))) && NoAdminPort(GetList(w, Leaf("ports")).value)
  {
    OtherPortsAre(GetList(w, Leaf("ports")).value);
  }

  /** Disabling after enabling gives back the document exactly when it was reversible. */
  lemma RestoredIff(m: Fields)
    requires InterfaceAfter(m, true).Ok?
    ensures InterfaceAfter(InterfaceAfter(m, true).value, false) == Ok(m) <==> Reversible(m)
  {
    var c := Contained(m);
    ContainedIsEnough(m);
    DeepEditAgain(c, true, false);
    DeepEdit(c, true);
    DeepEdit(c, false);
    ReversibleReads(m);
    if InterfaceAfter(c, false).Ok? {
      DeepEditAgain(c, false, false);
    }
    if Deep(m) {
      RawConfigRestored(m["spec"].fields);
      PortsRestored(ServiceSpecOf(m));
      DeepReads(m);
      RebuiltIsSame(m, RawConfigAfter(RawConfigIn(m), false).value, PortsAfter(PortsIn(m), false).value);
    }
  }

  /** At an input: a port of an author's own on 15000 is gone after the interface was switched on and off. */
  lemma OwnPortIsLost()
    ensures var own := Obj(map["name" := Str("debug"), "port" := Int(15000)]);
            var m := map["spec" := Obj(map["service" := Obj(map["spec" := Obj(map["ports" := List([own])])])])];
            && InterfaceAfter(m, true).Ok?
            && InterfaceAfter(InterfaceAfter(m, true).value, false) != Ok(m)
  {
    var own := Obj(map["name" := Str("debug"), "port" := Int(15000)]);
    var w: Fields := map["ports" := List([own])];
    var m: Fields := map["spec" := Obj(map["service" := Obj(map["spec" := Obj(w)])])];
    assert Deep(m) && ServiceSpecOf(m) == w && RawConfigIn(m) == None;
    DeepEdit(m, true);
    DeepReads(m);
    assert GetList(m, PortsPath()) == Ok([own]);
    assert IsAdminPort([own][0]);
    RestoredIff(m);
  }

  lemma DeepReads(m: Fields)
    requires Deep(m)
    ensures Get(m, AddrPath()) == Get(m["spec"].fields, Into("rawConfig", Into("config", Leaf("adminAddr"))))
    ensures GetMap(m, ConfigPath()) == GetMap(m["spec"].fields, Into("rawConfig", Leaf("config")))
    ensures GetMap(m, RawConfigPath()) == GetMap(m["spec"].fields, Leaf("rawConfig"))
    ensures Get(m, PortsPath()) == Get(ServiceSpecOf(m), Leaf("ports"))
  {
    assert Get(m, PortsPath()) == Get(m["spec"].fields, Into("service", Into("spec", Leaf("ports"))));
  }

  // ----- The whole overlay object -----

  /** The document an operator that finds none starts from. */
  function NewParameters(): Fields {
    map["metadata" := Obj(map["labels" := Obj(map[MANAGED_BY_LABEL := Str(MANAGED_BY_VALUE)])])]
  }

  /** What a pass stores: the Service type, then the admin interface. */
  function ParametersAfter(m: Fields, exposed: bool): Result<Fields, ()> {
    match Set(m, TypePath(), CLUSTER_IP)
    case Err(e) => Err(e)
    case Ok(n) => InterfaceAfter(n, exposed)
  }

  class Parameters {
    var live: Option<Fields>

    constructor (live: Option<Fields>)
      ensures this.live == live
    {
      this.live := live;
    }

    /** One failed edit stores nothing. */
    method Ensure(exposed: bool, writes: bool) returns (ok: bool)
      modifies this
      ensures var was := if old(live).None? then NewParameters() else old(live).value;
              && (ok <==> writes && ParametersAfter(was, exposed).Ok?)
              && live == if ok then Some(ParametersAfter(was, exposed).value) else old(live)
    {
      var m := NewParameters();
      if live.Some? {
        m := live.value;
      }
      var typed := Set(m, TypePath(), CLUSTER_IP);
      if typed.Err? {
        return false;
      }
      var document := new Document(typed.value);
      ok := document.ApplyAdminInterface(exposed);
      if !ok || !writes {
        return false;
      }
      live := Some(document.doc);
    }
  }

  lemma TypedIsDeep(m: Fields)
    requires Set(m, TypePath(), CLUSTER_IP).Ok?
    ensures var n := Set(m, TypePath(), CLUSTER_IP).value;
            Deep(n) && Lookup(ServiceSpecOf(n), "type") == Some(CLUSTER_IP)
  {
  }

  /** Every pass that stores anything stores a ClusterIP Service, and leaves what is not the operator's as it reads. */
  lemma PassPinsType(m: Fields, exposed: bool)
    requires ParametersAfter(m, exposed).Ok?
    ensures Get(ParametersAfter(m, exposed).value,
                Into("spec", Into("service", Into("spec", Leaf("type"))))) == Ok(Some(Str("ClusterIP")))
    ensures forall q | Apart(TypePath(), q) && Apart(AddrPath(), q) && Apart(PortsPath(), q) ::
              Get(ParametersAfter(m, exposed).value, q) == Get(m, q)
  {
    var n := Set(m, TypePath(), CLUSTER_IP).value;
    SetReadsBack(m, TypePath(), CLUSTER_IP);
    EditsAreFramed(n, exposed, TypePath());
    forall q | Apart(TypePath(), q) && Apart(AddrPath(), q) && Apart(PortsPath(), q)
      ensures Get(ParametersAfter(m, exposed).value, q) == Get(m, q)
    {
      SetKeepsTheRest(m, TypePath(), CLUSTER_IP, q);
      EditsAreFramed(n, exposed, q);
    }
  }

  lemma TypedAlready(m: Fields)
    requires Deep(m) && Lookup(ServiceSpecOf(m), "type") == Some(CLUSTER_IP)
    ensures Set(m, TypePath(), CLUSTER_IP) == Ok(m)
  {
    var s := m["spec"].fields;
    var v := s["service"].fields;
    var w := v["spec"].fields;
    assert w["type" := CLUSTER_IP] == w;
    assert v["spec" := v["spec"]] == v;
    assert s["service" := s["service"]] == s;
    assert m["spec" := m["spec"]] == m;
    assert Set(w, Leaf("type"), CLUSTER_IP) == Ok(w);
    assert Set(v, Into("spec", Leaf("type")), CLUSTER_IP) == Ok(v);
    assert Set(s, Into("service", Into("spec", Leaf("type"))), CLUSTER_IP) == Ok(s);
  }

  lemma PassAgain(m: Fields, first: bool, second: bool)
    requires ParametersAfter(m, first).Ok?
    ensures ParametersAfter(ParametersAfter(m, first).value, second) == ParametersAfter(m, second)
    ensures ParametersAfter(m, second).Ok?
  {
    TypedIsDeep(m);
    var n := Set(m, TypePath(), CLUSTER_IP).value;
    DeepEditAgain(n, first, second);
    DeepEdit(n, first);
    DeepEdit(n, second);
    TypedAlready(InterfaceAfter(n, first).value);
    BothOrNeither(n);
  }

  lemma BothOrNeither(m: Fields)
    requires Deep(m)
    ensures InterfaceAfter(m, true).Ok? <==> InterfaceAfter(m, false).Ok?
  {
    DeepEdit(m, true);
    DeepEdit(m, false);
  }

  /** One pass over the stored overlay; a failed edit stores nothing. */
  function Pass(m: Fields, exposed: bool): Fields {
    match ParametersAfter(m, exposed)
    case Ok(n) => n
    case Err(_) => m
  }

  function Passes(m: Fields, settings: seq<bool>): Fields {
    if settings == [] then m else Pass(Passes(m, settings[..|settings| - 1]), settings[|settings| - 1])
  }

  lemma PassTwice(m: Fields, first: bool, second: bool)
    ensures Pass(Pass(m, first), second) == Pass(m, second)
  {
    if ParametersAfter(m, first).Ok? {
      PassAgain(m, first, second);
    }
  }

  /**
   However often the interface was switched on and off, the overlay is what the last
   setting alone makes of the original.
   */
  lemma {:induction false} LastSettingWins(m: Fields, settings: seq<bool>)
    requires settings != []
    ensures Passes(m, settings) == Pass(m, settings[|settings| - 1])
  {
    var n := |settings| - 1;
    if n > 0 {
      LastSettingWins(m, settings[..n]);
      PassTwice(m, settings[n - 1], settings[n]);
    }
  }
}
