/** The PipeWire graph as the daemon keeps it: from one complete dump, and incrementally from monitor blocks. */
module Graph {
  import opened Text

  type U32 = n: nat | n < 0x1_0000_0000
  type U64 = n: nat | n < 0x1_0000_0000_0000_0000

  // ---------------------------------------------------------------------------
  // JSON values and the accessors the parsers use
  // ---------------------------------------------------------------------------

  datatype Value =
    | Null
    | Bool(b: bool)
    | UInt(n: U64)
    | OtherNumber
    | Str(s: string)
    | Arr(items: seq<Value>)
    | Obj(fields: map<string, Value>)

  function Field(v: Value, key: string): Option<Value> {
    if v.Obj? && key in v.fields then Some(v.fields[key]) else None
  }

  function FieldOf(v: Option<Value>, key: string): Option<Value> {
    if v.Some? then Field(v.value, key) else None
  }

  function AsU64(v: Option<Value>): Option<U64> {
    if v.Some? && v.value.UInt? then Some(v.value.n) else None
  }

  function AsStr(v: Option<Value>): Option<string> {
    if v.Some? && v.value.Str? then Some(v.value.s) else None
  }

  function Or<T>(a: Option<T>, b: Option<T>): Option<T> {
    if a.Some? then a else b
  }

  function GetOr<T>(a: Option<T>, d: T): T {
    if a.Some? then a.value else d
  }

  function NonEmpty(s: Option<string>): Option<string> {
    if s.Some? && s.value != "" then s else None
  }

  /** `as u32`: the low 32 bits. */
  function Truncate(n: U64): U32 {
    n % 0x1_0000_0000
  }

  function Decimal(s: string): nat
    requires Digits(s)
  {
    if s == "" then 0 else 10 * Decimal(s[..|s| - 1]) + (s[|s| - 1] as int - '0' as int)
  }

  /** `str::parse` for an unsigned integer below `limit`: digits, with an optional plus sign. */
  function ParseUint(s: string, limit: nat): (n: Option<nat>)
    ensures n.Some? ==> n.value < limit
  {
    var d := if s != "" && s[0] == '+' then s[1..] else s;
    if d != "" && Digits(d) && Decimal(d) < limit then Some(Decimal(d)) else None
  }

  /** A prop that may be a JSON number or a number in a string. */
  function PropAsU32(v: Option<Value>): Option<U32> {
    if AsU64(v).Some? then Some(Truncate(AsU64(v).value))
    else if AsStr(v).Some? then
      match ParseUint(AsStr(v).value, 0x1_0000_0000)
      case Some(n) => Some(n)
      case None => None
    else None
  }

  // ---------------------------------------------------------------------------
  // One object
  // ---------------------------------------------------------------------------

  datatype Kind = Client | Node | Port | Link | Other

  datatype NodeInfo = NodeInfo(
    id: U32, mediaClass: string, nodeName: string, appName: string, pid: U32, mediaName: string,
    declaredPid: U32, processBinary: string)

  datatype PortInfo = PortInfo(id: U32, nodeId: U32, name: string, direction: string)

  datatype PwLink = PwLink(
    id: U32, serial: Option<U64>, outputNode: U32, outputPort: U32, inputNode: U32, inputPort: U32)

  /** What `/proc` says about a process: its executable's base name and its cgroup unit. */
  datatype Proc = Proc(exe: U32 -> Option<string>, unit: U32 -> Option<string>)

  function IdOf(obj: Value): U32 {
    Truncate(GetOr(AsU64(Field(obj, "id")), 0))
  }

  function KindOf(obj: Value): Kind {
    var t := GetOr(AsStr(Field(obj, "type")), "");
    if t == "PipeWire:Interface:Client" then Client
    else if t == "PipeWire:Interface:Node" then Node
    else if t == "PipeWire:Interface:Port" then Port
    else if t == "PipeWire:Interface:Link" then Link
    else Other
  }

  /** The graph's word for removal: a null `info`, whatever else the object holds. */
  predicate IsRemoval(obj: Value) {
    Field(obj, "info") == Some(Null)
  }

  function InfoProps(obj: Value): Option<Value> {
    FieldOf(Field(obj, "info"), "props")
  }

  predicate HasSub(s: string, sub: string) {
    exists i | 0 <= i <= |s| :: sub <= s[i..]
  }

  /** A node's props with its client's as the fallback. */
  function Lookup(props: Value, client: Option<Value>, key: string): Option<Value> {
    Or(Field(props, key), FieldOf(client, key))
  }

  /** The label for a process: portal id, then what PipeWire says, then what `/proc` says, with the unit as a note. */
  function AppName(props: Value, client: Option<Value>, pid: U32, proc: Proc): string {
    var exe := if pid > 0 then proc.exe(pid) else None;
    var unit := if pid > 0 then proc.unit(pid) else None;
    var portal := NonEmpty(AsStr(Lookup(props, client, "pipewire.access.portal.app_id")));
    var declared := NonEmpty(AsStr(
      Or(Lookup(props, client, "application.name"),
      Or(Lookup(props, client, "application.process.binary"), Lookup(props, client, "node.description")))));
    var name := GetOr(Or(portal, Or(declared, Or(exe, unit))), "");
    var noted := if unit.Some? && name != "" && !HasSub(name, unit.value) && name != unit.value
                 then name + " [" + unit.value + "]" else name;
    if noted == "" then "unknown" else noted
  }

  function ParseNode(id: U32, obj: Value, clients: map<U32, Value>, proc: Proc): Option<NodeInfo> {
    match InfoProps(obj)
    case None => None
    case Some(props) =>
      var cid := PropAsU32(Field(props, "client.id"));
      var client := if cid.Some? && cid.value in clients then Some(clients[cid.value]) else None;
      var pid := GetOr(PropAsU32(
        Or(Lookup(props, client, "pipewire.sec.pid"), Lookup(props, client, "application.process.id"))), 0);
      Some(NodeInfo(
        id,
        GetOr(AsStr(Lookup(props, client, "media.class")), ""),
        GetOr(AsStr(Lookup(props, client, "node.name")), ""),
        AppName(props, client, pid, proc),
        pid,
        GetOr(AsStr(Field(props, "media.name")), ""),
        GetOr(PropAsU32(Lookup(props, client, "application.process.id")), 0),
        GetOr(AsStr(Lookup(props, client, "application.process.binary")), "")))
  }

  function ParsePort(id: U32, obj: Value): Option<PortInfo> {
    match InfoProps(obj)
    case None => None
    case Some(props) =>
      var node := PropAsU32(Field(props, "node.id"));
      var name := NonEmpty(AsStr(Field(props, "port.name")));
      if node.Some? && name.Some?
      then Some(PortInfo(id, node.value, name.value, GetOr(AsStr(Field(props, "port.direction")), "")))
      else None
  }

  function SerialOf(obj: Value): Option<U64> {
    var v := FieldOf(InfoProps(obj), "object.serial");
    if AsU64(v).Some? then AsU64(v)
    else if AsStr(v).Some? then
      match ParseUint(AsStr(v).value, 0x1_0000_0000_0000_0000)
      case Some(n) => Some(n)
      case None => None
    else None
  }

  function ParseLink(id: U32, obj: Value): (r: Option<PwLink>)
    ensures r.Some? ==> r.value.id == id
  {
    var info := Field(obj, "info");
    var out := AsU64(FieldOf(info, "output-node-id"));
    var inp := AsU64(FieldOf(info, "input-node-id"));
    if out.Some? && inp.Some? then
      Some(PwLink(id, SerialOf(obj),
                  Truncate(out.value), Truncate(GetOr(AsU64(FieldOf(info, "output-port-id")), 0)),
                  Truncate(inp.value), Truncate(GetOr(AsU64(FieldOf(info, "input-port-id")), 0))))
    else None
  }

  /** The link an object describes, if it is a link and can be read. */
  function LinkIn(obj: Value): (r: Option<PwLink>)
    ensures r.Some? ==> r.value.id == IdOf(obj) && !IsRemoval(obj)
  {
    if !IsRemoval(obj) && KindOf(obj) == Link then ParseLink(IdOf(obj), obj) else None
  }

  // ---------------------------------------------------------------------------
  // A list of objects, map by map
  // ---------------------------------------------------------------------------

  function ClientStep(clients: map<U32, Value>, obj: Value): map<U32, Value> {
    if IsRemoval(obj) then clients - {IdOf(obj)}
    else if KindOf(obj) == Client && InfoProps(obj).Some? then clients[IdOf(obj) := InfoProps(obj).value]
    else clients
  }

  function ClientsAfter(clients: map<U32, Value>, objects: seq<Value>): map<U32, Value> {
    if objects == [] then clients
    else ClientStep(ClientsAfter(clients, objects[..|objects| - 1]), objects[|objects| - 1])
  }

  function NodeStep(nodes: map<U32, NodeInfo>, obj: Value, clients: map<U32, Value>, proc: Proc): map<U32, NodeInfo> {
    if IsRemoval(obj) then nodes - {IdOf(obj)}
    else if KindOf(obj) == Node then
      match ParseNode(IdOf(obj), obj, clients, proc)
      case Some(n) => nodes[IdOf(obj) := n]
      case None => nodes
    else nodes
  }

  function NodesAfter(nodes: map<U32, NodeInfo>, objects: seq<Value>, clients: map<U32, Value>, proc: Proc)
    : map<U32, NodeInfo>
  {
    if objects == [] then nodes
    else NodeStep(NodesAfter(nodes, objects[..|objects| - 1], clients, proc), objects[|objects| - 1], clients, proc)
  }

  function PortStep(ports: map<U32, PortInfo>, obj: Value): map<U32, PortInfo> {
    if IsRemoval(obj) then ports - {IdOf(obj)}
    else if KindOf(obj) == Port then
      match ParsePort(IdOf(obj), obj)
      case Some(p) => ports[IdOf(obj) := p]
      case None => ports
    else ports
  }

  function PortsAfter(ports: map<U32, PortInfo>, objects: seq<Value>): map<U32, PortInfo> {
    if objects == [] then ports
    else PortStep(PortsAfter(ports, objects[..|objects| - 1]), objects[|objects| - 1])
  }

  /** The links, and the ids reported new so far. */
  datatype LinkFold = LinkFold(links: map<U32, PwLink>, news: seq<U32>)

  /** The link as stored: its own serial if it has one, else the one known under its id. */
  function WithSerial(prior: Option<PwLink>, link: PwLink): PwLink {
    if prior.Some? && link.serial.None? then link.(serial := prior.value.serial) else link
  }

  function Known(links: map<U32, PwLink>, id: U32): Option<PwLink> {
    if id in links then Some(links[id]) else None
  }

  function LinkStep(f: LinkFold, obj: Value): LinkFold {
    if IsRemoval(obj) then f.(links := f.links - {IdOf(obj)})
    else match LinkIn(obj)
      case None => f
      case Some(link) =>
        var prior := Known(f.links, link.id);
        var stored := WithSerial(prior, link);
        var isNew := prior.None? || prior.value.serial != stored.serial;
        LinkFold(f.links[link.id := stored], if isNew then f.news + [link.id] else f.news)
  }

  function LinksAfter(f: LinkFold, objects: seq<Value>): LinkFold {
    if objects == [] then f
    else LinkStep(LinksAfter(f, objects[..|objects| - 1]), objects[|objects| - 1])
  }

  // ---------------------------------------------------------------------------
  // GraphState
  // ---------------------------------------------------------------------------

  datatype State = State(
    nodes: map<U32, NodeInfo>, ports: map<U32, PortInfo>, links: map<U32, PwLink>, clients: map<U32, Value>)

  const EMPTY := State(map[], map[], map[], map[])

  function Applied(g: State, objects: seq<Value>, proc: Proc): (State, seq<U32>) {
    var clients := ClientsAfter(g.clients, objects);
    var links := LinksAfter(LinkFold(g.links, []), objects);
    (State(NodesAfter(g.nodes, objects, clients, proc), PortsAfter(g.ports, objects), links.links, clients),
     links.news)
  }

  class GraphState {
    var nodes: map<U32, NodeInfo>
    var ports: map<U32, PortInfo>
    var links: map<U32, PwLink>
    var clientProps: map<U32, Value>

    function View(): State
      reads this
    {
      State(nodes, ports, links, clientProps)
    }

    constructor ()
      ensures View() == EMPTY
    {
      nodes, ports, links, clientProps := map[], map[], map[], map[];
    }

    method Clear()
      modifies this
      ensures View() == EMPTY
    {
      nodes, ports, links, clientProps := map[], map[], map[], map[];
    }

    /** First pass: the client properties become the fold of the whole block before any node is read. */
    method IndexClients(objects: seq<Value>)
      modifies `clientProps
      ensures clientProps == ClientsAfter(old(clientProps), objects)
    {
      assert objects[..0] == [];
      for i := 0 to |objects|
        invariant clientProps == ClientsAfter(old(clientProps), objects[..i])
      {
        var obj := objects[i];
        assert objects[..i + 1][..i] == objects[..i];
        if IsRemoval(obj) {
          clientProps := clientProps - {IdOf(obj)};
        } else if KindOf(obj) == Client {
          match InfoProps(obj) {
            case Some(props) => clientProps := clientProps[IdOf(obj) := props];
            case None =>
          }
        }
      }
      assert objects[..|objects|] == objects;
    }

    /** Stores the link; it is new without a predecessor under its id, or with one of another stored serial. */
    method ApplyLink(parsed: PwLink) returns (isNew: bool)
      modifies `links
      ensures var prior := Known(old(links), parsed.id);
              var stored := WithSerial(prior, parsed);
              && links == old(links)[parsed.id := stored]
              && isNew == (prior.None? || prior.value.serial != stored.serial)
    {
      var link := parsed;
      isNew := true;
      if link.id in links {
        if link.serial.None? {
          link := link.(serial := links[link.id].serial);
        }
        isNew := links[link.id].serial != link.serial;
      }
      links := links[link.id := link];
    }

    /** One object of the second pass: a removal clears every map, anything readable replaces its entry. */
    method ApplyObject(obj: Value, proc: Proc) returns (isNew: bool)
      modifies `nodes, `ports, `links
      ensures nodes == NodeStep(old(nodes), obj, clientProps, proc)
      ensures ports == PortStep(old(ports), obj)
      ensures forall news :: LinkStep(LinkFold(old(links), news), obj)
                          == LinkFold(links, if isNew then news + [IdOf(obj)] else news)
    {
      hide ParseNode, ParsePort, ParseLink, KindOf;
      var id := IdOf(obj);
      isNew := false;
      if IsRemoval(obj) {
        nodes := nodes - {id};
        ports := ports - {id};
        links := links - {id};
        return;
      }
      match KindOf(obj) {
        case Node =>
          match ParseNode(id, obj, clientProps, proc) {
            case Some(info) => nodes := nodes[id := info];
            case None =>
          }
        case Port =>
          match ParsePort(id, obj) {
            case Some(port) => ports := ports[id := port];
            case None =>
          }
        case Link =>
          match ParseLink(id, obj) {
            case Some(link) => isNew := ApplyLink(link);
            case None =>
          }
        case Client =>
        case Other =>
      }
    }

    /** The maps become the block's fold over them; the result lists the new link ids in block order. */
    method ApplyBlock(objects: seq<Value>, proc: Proc) returns (newLinks: seq<U32>)
      modifies this
      ensures (View(), newLinks) == Applied(old(View()), objects, proc)
    {
      hide NodeStep, PortStep, LinkStep;
      IndexClients(objects);
      newLinks := [];
      assert objects[..0] == [];
      for i := 0 to |objects|
        invariant clientProps == ClientsAfter(old(clientProps), objects)
        invariant nodes == NodesAfter(old(nodes), objects[..i], clientProps, proc)
        invariant ports == PortsAfter(old(ports), objects[..i])
        invariant LinkFold(links, newLinks) == LinksAfter(LinkFold(old(links), []), objects[..i])
      {
        assert objects[..i + 1][..i] == objects[..i];
        var isNew := ApplyObject(objects[i], proc);
        if isNew {
          newLinks := newLinks + [IdOf(objects[i])];
        }
      }
      assert objects[..|objects|] == objects;
    }
  }

  // ---------------------------------------------------------------------------
  // The from-scratch capture
  // ---------------------------------------------------------------------------

  datatype Snapshot = Snapshot(nodes: map<U32, NodeInfo>, ports: map<U32, PortInfo>, links: seq<PwLink>)

  /** The capture's own rules: no object is a removal to it, and links pile up in a list. */
  function CapturedClients(objects: seq<Value>): map<U32, Value> {
    if objects == [] then map[]
    else
      var front, obj := CapturedClients(objects[..|objects| - 1]), objects[|objects| - 1];
      if KindOf(obj) == Client && InfoProps(obj).Some? then front[IdOf(obj) := InfoProps(obj).value] else front
  }

  function CapturedNodes(objects: seq<Value>, clients: map<U32, Value>, proc: Proc): map<U32, NodeInfo> {
    if objects == [] then map[]
    else
      var front, obj := CapturedNodes(objects[..|objects| - 1], clients, proc), objects[|objects| - 1];
      if KindOf(obj) != Node then front
      else match ParseNode(IdOf(obj), obj, clients, proc)
        case Some(n) => front[IdOf(obj) := n]
        case None => front
  }

  function CapturedPorts(objects: seq<Value>): map<U32, PortInfo> {
    if objects == [] then map[]
    else
      var front, obj := CapturedPorts(objects[..|objects| - 1]), objects[|objects| - 1];
      if KindOf(obj) != Port then front
      else match ParsePort(IdOf(obj), obj)
        case Some(p) => front[IdOf(obj) := p]
        case None => front
  }

  function CapturedLinks(objects: seq<Value>): seq<PwLink> {
    if objects == [] then []
    else
      var front, obj := CapturedLinks(objects[..|objects| - 1]), objects[|objects| - 1];
      if KindOf(obj) != Link then front
      else match ParseLink(IdOf(obj), obj)
        case Some(l) => front + [l]
        case None => front
  }

  function Captured(objects: seq<Value>, proc: Proc): Snapshot {
    Snapshot(CapturedNodes(objects, CapturedClients(objects), proc), CapturedPorts(objects), CapturedLinks(objects))
  }

  /** `capture_graph` on one complete dump, after the JSON has been read. */
  method CaptureGraph(objects: seq<Value>, proc: Proc) returns (snapshot: Snapshot)
    ensures snapshot == Captured(objects, proc)
  {
    hide ParseNode, ParsePort, ParseLink, KindOf;
    var clients: map<U32, Value> := map[];
    assert objects[..0] == [];
    for i := 0 to |objects|
      invariant clients == CapturedClients(objects[..i])
    {
      assert objects[..i + 1][..i] == objects[..i];
      var obj := objects[i];
      if KindOf(obj) == Client {
        match InfoProps(obj) {
          case Some(props) => clients := clients[IdOf(obj) := props];
          case None =>
        }
      }
    }
    assert objects[..|objects|] == objects;
    var nodes: map<U32, NodeInfo>, ports: map<U32, PortInfo>, links: seq<PwLink> := map[], map[], [];
    for i := 0 to |objects|
      invariant nodes == CapturedNodes(objects[..i], clients, proc)
      invariant ports == CapturedPorts(objects[..i])
      invariant links == CapturedLinks(objects[..i])
    {
      assert objects[..i + 1][..i] == objects[..i];
      var obj := objects[i];
      match KindOf(obj) {
        case Node =>
          var n := ParseNode(IdOf(obj), obj, clients, proc);
          nodes := if n.Some? then nodes[IdOf(obj) := n.value] else nodes;
        case Port =>
          var p := ParsePort(IdOf(obj), obj);
          ports := if p.Some? then ports[IdOf(obj) := p.value] else ports;
        case Link =>
          var l := ParseLink(IdOf(obj), obj);
          links := if l.Some? then links + [l.value] else links;
        case Client =>
        case Other =>
      }
    }
    snapshot := Snapshot(nodes, ports, links);
  }

  predicate RemovalFree(objects: seq<Value>) {
    forall o | o in objects :: !IsRemoval(o)
  }

  predicate DistinctIds(objects: seq<Value>) {
    forall i, j | 0 <= i < j < |objects| :: IdOf(objects[i]) != IdOf(objects[j])
  }

  lemma {:induction false} ClientsAgree(objects: seq<Value>)
    requires RemovalFree(objects)
    ensures ClientsAfter(map[], objects) == CapturedClients(objects)
  {
    if objects != [] {
      ClientsAgree(objects[..|objects| - 1]);
    }
  }

  lemma {:induction false} NodesAgree(objects: seq<Value>, clients: map<U32, Value>, proc: Proc)
    requires RemovalFree(objects)
    ensures NodesAfter(map[], objects, clients, proc) == CapturedNodes(objects, clients, proc)
  {
    if objects != [] {
      NodesAgree(objects[..|objects| - 1], clients, proc);
    }
  }

  lemma {:induction false} PortsAgree(objects: seq<Value>)
    requires RemovalFree(objects)
    ensures PortsAfter(map[], objects) == CapturedPorts(objects)
  {
    if objects != [] {
      PortsAgree(objects[..|objects| - 1]);
    }
  }

  /** The list and the map hold the same links, each under its own id, and every one of them was reported new. */
  ghost predicate SameLinks(list: seq<PwLink>, f: LinkFold) {
    && |f.news| == |list|
    && (forall i | 0 <= i < |list| :: f.news[i] == list[i].id)
    && (forall i, j | 0 <= i < j < |list| :: list[i].id != list[j].id)
    && (forall i | 0 <= i < |list| :: list[i].id in f.links && f.links[list[i].id] == list[i])
    && (forall id | id in f.links :: f.links[id] in list)
  }

  lemma SameLinksSnoc(list: seq<PwLink>, f: LinkFold, link: PwLink)
    requires SameLinks(list, f) && link.id !in f.links
    ensures SameLinks(list + [link], LinkFold(f.links[link.id := link], f.news + [link.id]))
  {
    var list', f' := list + [link], LinkFold(f.links[link.id := link], f.news + [link.id]);
    assert list'[|list|] == link;
    forall id | id in f'.links ensures f'.links[id] in list' {
      if id != link.id {
        assert f.links[id] in list;
      }
    }
  }

  lemma {:induction false} NotThere(objects: seq<Value>, id: U32)
    requires forall o | o in objects :: IdOf(o) != id
    ensures id !in LinksAfter(LinkFold(map[], []), objects).links
  {
    if objects != [] {
      NotThere(objects[..|objects| - 1], id);
    }
  }

  lemma {:induction false} LinksAgree(objects: seq<Value>)
    requires RemovalFree(objects) && DistinctIds(objects)
    ensures SameLinks(CapturedLinks(objects), LinksAfter(LinkFold(map[], []), objects))
  {
    if objects != [] {
      var front, obj := objects[..|objects| - 1], objects[|objects| - 1];
      LinksAgree(front);
      NotThere(front, IdOf(obj));
      if LinkIn(obj).Some? {
        SameLinksSnoc(CapturedLinks(front), LinksAfter(LinkFold(map[], []), front), LinkIn(obj).value);
      }
    }
  }

  /**
   One removal-free block applied to an empty graph gives the capture's nodes and ports; with distinct ids it gives
   the capture's links too, all of them reported new.
   */
  lemma SeedEqualsCapture(objects: seq<Value>, proc: Proc)
    requires RemovalFree(objects)
    ensures Applied(EMPTY, objects, proc).0.nodes == Captured(objects, proc).nodes
    ensures Applied(EMPTY, objects, proc).0.ports == Captured(objects, proc).ports
    ensures DistinctIds(objects) ==>
            SameLinks(Captured(objects, proc).links,
                      LinkFold(Applied(EMPTY, objects, proc).0.links, Applied(EMPTY, objects, proc).1))
  {
    ClientsAgree(objects);
    NodesAgree(objects, CapturedClients(objects), proc);
    PortsAgree(objects);
    if DistinctIds(objects) {
      LinksAgree(objects);
    }
  }

  // ---------------------------------------------------------------------------
  // Where the blocks are cut
  // ---------------------------------------------------------------------------

  function Flatten(blocks: seq<seq<Value>>): seq<Value> {
    if blocks == [] then [] else blocks[0] + Flatten(blocks[1..])
  }

  /** Block after block: the graph at the end and all ids reported new, in order. */
  function AppliedAll(g: State, blocks: seq<seq<Value>>, proc: Proc): (State, seq<U32>)
    decreases |blocks|
  {
    if blocks == [] then (g, [])
    else
      var (mid, first) := Applied(g, blocks[0], proc);
      var (end, rest) := AppliedAll(mid, blocks[1..], proc);
      (end, first + rest)
  }

  lemma {:induction false} FoldsConcat(clients: map<U32, Value>, ports: map<U32, PortInfo>, f: LinkFold,
                                       a: seq<Value>, b: seq<Value>)
    ensures ClientsAfter(clients, a + b) == ClientsAfter(ClientsAfter(clients, a), b)
    ensures PortsAfter(ports, a + b) == PortsAfter(PortsAfter(ports, a), b)
    ensures LinksAfter(f, a + b) == LinksAfter(LinksAfter(f, a), b)
  {
    hide ClientStep, PortStep, LinkStep;
    if b == [] {
      assert a + b == a;
    } else {
      var ab, front := a + b, b[..|b| - 1];
      assert ab[..|ab| - 1] == a + front && ab[|ab| - 1] == b[|b| - 1];
      FoldsConcat(clients, ports, f, a, front);
    }
  }

  /** Earlier reports only sit in front. */
  lemma {:induction false} NewsAppend(f: LinkFold, front: seq<U32>, objects: seq<Value>)
    ensures var r := LinksAfter(f, objects);
            LinksAfter(f.(news := front + f.news), objects) == r.(news := front + r.news)
  {
    if objects != [] {
      NewsAppend(f, front, objects[..|objects| - 1]);
      var r := LinksAfter(f, objects[..|objects| - 1]);
      assert forall id :: front + (r.news + [id]) == (front + r.news) + [id];
    }
  }

  lemma {:induction false} CutIsFlat(g: State, blocks: seq<seq<Value>>, proc: Proc)
    ensures var (end, news) := AppliedAll(g, blocks, proc);
            && end.clients == ClientsAfter(g.clients, Flatten(blocks))
            && end.ports == PortsAfter(g.ports, Flatten(blocks))
            && LinkFold(end.links, news) == LinksAfter(LinkFold(g.links, []), Flatten(blocks))
    decreases |blocks|
  {
    if blocks != [] {
      var (mid, first) := Applied(g, blocks[0], proc);
      CutIsFlat(mid, blocks[1..], proc);
      FoldsConcat(g.clients, g.ports, LinkFold(g.links, []), blocks[0], Flatten(blocks[1..]));
      NewsAppend(LinkFold(mid.links, []), first, Flatten(blocks[1..]));
      assert first + [] == first;
    }
  }

  /** For links, ports and clients only the object stream counts, however it is cut into blocks. */
  lemma RecuttingIsIrrelevant(g: State, a: seq<seq<Value>>, b: seq<seq<Value>>, proc: Proc)
    requires Flatten(a) == Flatten(b)
    ensures var (ga, newsA) := AppliedAll(g, a, proc);
            var (gb, newsB) := AppliedAll(g, b, proc);
            ga.links == gb.links && ga.ports == gb.ports && ga.clients == gb.clients && newsA == newsB
  {
    CutIsFlat(g, a, proc);
    CutIsFlat(g, b, proc);
  }

  // ---------------------------------------------------------------------------
  // Identity in the graph
  // ---------------------------------------------------------------------------

  /** Every link sits under its own id. */
  predicate Keyed(links: map<U32, PwLink>) {
    forall id | id in links :: links[id].id == id
  }

  lemma {:induction false} KeyedKept(f: LinkFold, objects: seq<Value>)
    requires Keyed(f.links)
    ensures Keyed(LinksAfter(f, objects).links)
  {
    if objects != [] {
      KeyedKept(f, objects[..|objects| - 1]);
    }
  }

  predicate AllSerial(links: map<U32, PwLink>) {
    forall id | id in links :: links[id].serial.Some?
  }

  /** The premise on the wire: whenever a link is not known yet, the object that brings it carries its serial. */
  predicate FirstCarriesSerial(links: map<U32, PwLink>, objects: seq<Value>) {
    objects == [] ||
    var front, obj := objects[..|objects| - 1], objects[|objects| - 1];
    && FirstCarriesSerial(links, front)
    && (LinkIn(obj).Some? && IdOf(obj) !in LinksAfter(LinkFold(links, []), front).links ==> SerialOf(obj).Some?)
  }

  lemma {:induction false} SerialsKept(links: map<U32, PwLink>, objects: seq<Value>)
    requires AllSerial(links) && FirstCarriesSerial(links, objects)
    ensures AllSerial(LinksAfter(LinkFold(links, []), objects).links)
  {
    if objects != [] {
      SerialsKept(links, objects[..|objects| - 1]);
    }
  }

  /** A link the graph holds and did not hold before was reported new in this block. */
  lemma {:induction false} AppearedMeansReported(links: map<U32, PwLink>, objects: seq<Value>, id: U32)
    requires id !in links && id in LinksAfter(LinkFold(links, []), objects).links
    ensures id in LinksAfter(LinkFold(links, []), objects).news
  {
    var front, obj := objects[..|objects| - 1], objects[|objects| - 1];
    if id in LinksAfter(LinkFold(links, []), front).links {
      AppearedMeansReported(links, front, id);
    }
  }

  /** The links after each prefix of the block. */
  function LinksAt(links: map<U32, PwLink>, objects: seq<Value>, k: nat): map<U32, PwLink>
    requires k <= |objects|
  {
    LinksAfter(LinkFold(links, []), objects[..k]).links
  }

  /** All through the block the id is there, under the serial it had before it. */
  ghost predicate StaysSame(links: map<U32, PwLink>, objects: seq<Value>, id: U32)
    requires id in links
  {
    forall k | 0 <= k <= |objects| ::
      id in LinksAt(links, objects, k) && LinksAt(links, objects, k)[id].serial == links[id].serial
  }

  lemma StaysSameSnoc(links: map<U32, PwLink>, front: seq<Value>, obj: Value, id: U32)
    requires id in links
    ensures StaysSame(links, front + [obj], id)
       <==> && StaysSame(links, front, id)
            && id in LinksAfter(LinkFold(links, []), front + [obj]).links
            && LinksAfter(LinkFold(links, []), front + [obj]).links[id].serial == links[id].serial
  {
    hide LinksAfter;
    var all := front + [obj];
    assert forall k | 0 <= k <= |front| :: all[..k] == front[..k];
    assert all[..|all|] == all;
    assert forall k | 0 <= k <= |front| :: LinksAt(links, all, k) == LinksAt(links, front, k);
    assert LinksAt(links, all, |all|) == LinksAfter(LinkFold(links, []), all).links;
  }

  /**
   A link the graph held before and holds after was reported new if and only if in between it was gone or had another
   serial.
   */
  lemma {:induction false} ReportedIffNotSame(links: map<U32, PwLink>, objects: seq<Value>, id: U32)
    requires id in links
    ensures id in LinksAfter(LinkFold(links, []), objects).links ==>
              (id in LinksAfter(LinkFold(links, []), objects).news <==> !StaysSame(links, objects, id))
    ensures StaysSame(links, objects, id) ==> id in LinksAfter(LinkFold(links, []), objects).links
                                              && id !in LinksAfter(LinkFold(links, []), objects).news
                                              && LinksAfter(LinkFold(links, []), objects).links[id].serial
                                                 == links[id].serial
  {
    if objects == [] {
    } else {
      hide StaysSame, ParseLink, KindOf;
      var front, obj := objects[..|objects| - 1], objects[|objects| - 1];
      assert front + [obj] == objects;
      ReportedIffNotSame(links, front, id);
      StaysSameSnoc(links, front, obj, id);
    }
  }

  /** A removal is final until the id comes back: nothing of the object is left in any map. */
  lemma {:induction false} RemovalForgets(g: State, objects: seq<Value>, proc: Proc, i: nat)
    requires i < |objects| && IsRemoval(objects[i])
    requires forall j | i < j < |objects| :: IdOf(objects[j]) != IdOf(objects[i])
    ensures var end := Applied(g, objects, proc).0;
            var id := IdOf(objects[i]);
            id !in end.nodes && id !in end.ports && id !in end.links && id !in end.clients
  {
    ForgottenIn(g, objects, ClientsAfter(g.clients, objects), proc, i);
  }

  lemma {:induction false} ForgottenIn(g: State, objects: seq<Value>, clients: map<U32, Value>, proc: Proc, i: nat)
    requires i < |objects| && IsRemoval(objects[i])
    requires forall j | i < j < |objects| :: IdOf(objects[j]) != IdOf(objects[i])
    ensures IdOf(objects[i]) !in NodesAfter(g.nodes, objects, clients, proc)
    ensures IdOf(objects[i]) !in PortsAfter(g.ports, objects)
    ensures IdOf(objects[i]) !in LinksAfter(LinkFold(g.links, []), objects).links
    ensures IdOf(objects[i]) !in ClientsAfter(g.clients, objects)
  {
    hide ParseNode, ParsePort, ParseLink, KindOf;
    if i < |objects| - 1 {
      ForgottenIn(g, objects[..|objects| - 1], clients, proc, i);
    }
  }

  // ---------------------------------------------------------------------------
  // Objects as they come over the wire
  // ---------------------------------------------------------------------------

  function PrintNat(n: nat): string {
    (if n < 10 then "" else PrintNat(n / 10)) + [('0' as int + n % 10) as char]
  }

  lemma {:induction false} PrintedIsRead(n: nat)
    ensures Digits(PrintNat(n)) && PrintNat(n) != "" && PrintNat(n)[0] != '+' && Decimal(PrintNat(n)) == n
  {
    var front := if n < 10 then "" else PrintNat(n / 10);
    assert PrintNat(n)[..|PrintNat(n)| - 1] == front;
    if n >= 10 {
      PrintedIsRead(n / 10);
    }
  }

  /** A number printed in decimal is read back if it is below the limit, with or without a plus, and else refused. */
  lemma NumberRoundTrip(n: nat, limit: nat)
    ensures ParseUint(PrintNat(n), limit) == if n < limit then Some(n) else None
    ensures ParseUint("+" + PrintNat(n), limit) == if n < limit then Some(n) else None
  {
    hide PrintNat, Decimal, Digits;
    PrintedIsRead(n);
    assert ("+" + PrintNat(n))[1..] == PrintNat(n);
  }

  function Object(id: U32, kind: string, info: Value): Value {
    Value.Obj(map["id" := UInt(id), "type" := Str(kind), "info" := info])
  }

  /** A serial as the link's props hold it: a number, or its digits in a string. */
  function SerialProps(serial: Option<U64>, asText: bool): map<string, Value> {
    match serial
    case Some(n) => map["object.serial" := if asText then Str(PrintNat(n)) else UInt(n)]
    case None => map[]
  }

  function LinkObject(l: PwLink, asText: bool): Value {
    Object(l.id, "PipeWire:Interface:Link",
           Value.Obj(map["output-node-id" := UInt(l.outputNode), "output-port-id" := UInt(l.outputPort),
                         "input-node-id" := UInt(l.inputNode), "input-port-id" := UInt(l.inputPort),
                         "props" := Value.Obj(SerialProps(l.serial, asText))]))
  }

  /** A link is read back from its object, however its serial is written. */
  lemma LinkRoundTrip(l: PwLink, asText: bool)
    ensures !IsRemoval(LinkObject(l, asText)) && IdOf(LinkObject(l, asText)) == l.id
    ensures LinkIn(LinkObject(l, asText)) == Some(l)
  {
    hide PrintNat, ParseUint;
    LinkKind(l, asText);
    LinkSerial(l, asText);
    var info := FieldOf(Some(LinkObject(l, asText)), "info").value;
    assert Field(info, "output-node-id") == Some(UInt(l.outputNode));
    assert Field(info, "output-port-id") == Some(UInt(l.outputPort));
    assert Field(info, "input-node-id") == Some(UInt(l.inputNode));
    assert Field(info, "input-port-id") == Some(UInt(l.inputPort));
  }

  lemma LinkKind(l: PwLink, asText: bool)
    ensures KindOf(LinkObject(l, asText)) == Link
  {
  }

  lemma LinkSerial(l: PwLink, asText: bool)
    ensures SerialOf(LinkObject(l, asText)) == l.serial
  {
    hide PrintNat, ParseUint;
    if l.serial.Some? {
      NumberRoundTrip(l.serial.value, 0x1_0000_0000_0000_0000);
    }
  }

  /** A link without ports gets port 0 at both ends; one without both nodes is no link. */
  lemma LinkDefaults(id: U32, nodes: map<string, Value>)
    requires nodes.Keys <= {"output-node-id", "input-node-id"} && forall k | k in nodes :: nodes[k].UInt?
    ensures ParseLink(id, Object(id, "PipeWire:Interface:Link", Value.Obj(nodes)))
         == if "output-node-id" in nodes && "input-node-id" in nodes
            then Some(PwLink(id, None, Truncate(nodes["output-node-id"].n), 0, Truncate(nodes["input-node-id"].n), 0))
            else None
  {
    hide PropAsU32, ParseUint, Truncate;
    var obj := Object(id, "PipeWire:Interface:Link", Value.Obj(nodes));
    assert Field(obj, "info") == Some(Value.Obj(nodes)) && SerialOf(obj) == None;
    assert Truncate(0) == 0 by { SmallStays(0); }
  }

  /** An object's id is the low 32 bits of its `id`, and 0 if it has none that is a number. */
  lemma IdIs(fields: map<string, Value>)
    ensures IdOf(Value.Obj(fields))
         == if "id" in fields && fields["id"].UInt? then fields["id"].n % 0x1_0000_0000 else 0
  {
  }

  lemma SmallStays(n: U32)
    ensures Truncate(n) == n
  {
  }

  function RemovalObject(id: U32): Value {
    Value.Obj(map["id" := UInt(id), "info" := Null])
  }

  /** An object with a null `info` takes its id out of every map. */
  lemma RemovedIsGone(g: State, objects: seq<Value>, proc: Proc, id: U32)
    ensures var end := Applied(g, objects + [RemovalObject(id)], proc).0;
            id !in end.nodes && id !in end.ports && id !in end.links && id !in end.clients
  {
    hide Applied;
    var all := objects + [RemovalObject(id)];
    assert all[|objects|] == RemovalObject(id) && IsRemoval(all[|objects|]) && IdOf(all[|objects|]) == id;
    RemovalForgets(g, all, proc, |objects|);
  }

  /** A link that comes is in the graph as it was sent, and reported new if its id was not there. */
  lemma ArrivedIsThere(g: State, objects: seq<Value>, proc: Proc, l: PwLink, asText: bool)
    requires l.id !in Applied(g, objects, proc).0.links
    ensures var (end, news) := Applied(g, objects + [LinkObject(l, asText)], proc);
            l.id in end.links && end.links[l.id] == l && news == Applied(g, objects, proc).1 + [l.id]
  {
    hide LinkObject, NodesAfter, PortsAfter, ClientsAfter, LinkIn, IsRemoval;
    var all := objects + [LinkObject(l, asText)];
    assert all[..|objects|] == objects;
    LinkRoundTrip(l, asText);
  }

  /**
   A link that comes under a known id replaces what was there, keeping the known serial if it brings none; it is
   reported new if and only if it brings another one.
   */
  lemma KnownLinkIsReplaced(g: State, objects: seq<Value>, proc: Proc, l: PwLink, asText: bool)
    requires l.id in Applied(g, objects, proc).0.links
    ensures var (before, first) := Applied(g, objects, proc);
            var (end, news) := Applied(g, objects + [LinkObject(l, asText)], proc);
            var was := before.links[l.id].serial;
            var other := l.serial.Some? && l.serial != was;
            && l.id in end.links
            && end.links[l.id] == PwLink(l.id, if l.serial.Some? then l.serial else was, l.outputNode, l.outputPort,
                                         l.inputNode, l.inputPort)
            && news == if other then first + [l.id] else first
  {
    hide LinkObject, NodesAfter, PortsAfter, ClientsAfter, LinkIn, IsRemoval;
    var all := objects + [LinkObject(l, asText)];
    assert all[..|objects|] == objects;
    LinkRoundTrip(l, asText);
  }

  function PortObject(p: PortInfo): Value {
    Object(p.id, "PipeWire:Interface:Port",
           Value.Obj(map["props" := Value.Obj(map["node.id" := UInt(p.nodeId), "port.name" := Str(p.name),
                                                  "port.direction" := Str(p.direction)])]))
  }

  /** A port that comes is in the graph as it was sent, if it has a name. */
  lemma PortArrives(ports: map<U32, PortInfo>, p: PortInfo)
    ensures PortStep(ports, PortObject(p)) == if p.name != "" then ports[p.id := p] else ports
  {
    PortProps(p);
  }

  lemma PortProps(p: PortInfo)
    ensures KindOf(PortObject(p)) == Port && !IsRemoval(PortObject(p)) && IdOf(PortObject(p)) == p.id
    ensures InfoProps(PortObject(p)) == Some(Value.Obj(map["node.id" := UInt(p.nodeId), "port.name" := Str(p.name),
                                                           "port.direction" := Str(p.direction)]))
  {
  }

  function ClientObject(id: U32, props: Value): Value {
    Object(id, "PipeWire:Interface:Client", Value.Obj(map["props" := props]))
  }

  /** A client that comes leaves its props for the nodes to fall back on. */
  lemma ClientArrives(clients: map<U32, Value>, id: U32, props: Value)
    ensures ClientStep(clients, ClientObject(id, props)) == clients[id := props]
  {
  }

  function NodeObject(id: U32, props: Value): Value {
    Object(id, "PipeWire:Interface:Node", Value.Obj(map["props" := props]))
  }

  /** The client a node names, if it is known. */
  function ClientOf(props: Value, clients: map<U32, Value>): Option<Value> {
    match PropAsU32(Field(props, "client.id"))
    case Some(id) => if id in clients then Some(clients[id]) else None
    case None => None
  }

  /** A property is the node's own, or else its client's. */
  lemma OwnThenClient(props: Value, client: Option<Value>, key: string)
    ensures Field(props, key).Some? ==> Lookup(props, client, key) == Field(props, key)
    ensures Field(props, key).None? && client.Some? ==> Lookup(props, client, key) == Field(client.value, key)
    ensures Field(props, key).None? && client.None? ==> Lookup(props, client, key) == None
  {
  }

  /**
   A node that comes is in the graph under its id, with its class, names and process as its props and its client's say;
   the process PipeWire vouches for goes before the one the application declares.
   */
  lemma NodeArrives(nodes: map<U32, NodeInfo>, id: U32, props: Value, clients: map<U32, Value>, proc: Proc)
    ensures var n, client := NodeStep(nodes, NodeObject(id, props), clients, proc), ClientOf(props, clients);
            && n.Keys == nodes.Keys + {id} && (forall k | k in nodes && k != id :: n[k] == nodes[k])
            && n[id].id == id
            && n[id].mediaClass == GetOr(AsStr(Lookup(props, client, "media.class")), "")
            && n[id].nodeName == GetOr(AsStr(Lookup(props, client, "node.name")), "")
            && n[id].mediaName == GetOr(AsStr(Field(props, "media.name")), "")
            && n[id].appName == AppName(props, client, n[id].pid, proc)
            && (Lookup(props, client, "pipewire.sec.pid").Some? ==>
                  n[id].pid == GetOr(PropAsU32(Lookup(props, client, "pipewire.sec.pid")), 0))
            && (Lookup(props, client, "pipewire.sec.pid").None? ==>
                  n[id].pid == GetOr(PropAsU32(Lookup(props, client, "application.process.id")), 0))
            && n[id].declaredPid == GetOr(PropAsU32(Lookup(props, client, "application.process.id")), 0)
            && n[id].processBinary == GetOr(AsStr(Lookup(props, client, "application.process.binary")), "")
  {
    hide PropAsU32, Lookup, AppName;
    NodeProps(id, props);
  }

  lemma NodeProps(id: U32, props: Value)
    ensures KindOf(NodeObject(id, props)) == Node && !IsRemoval(NodeObject(id, props))
    ensures IdOf(NodeObject(id, props)) == id && InfoProps(NodeObject(id, props)) == Some(props)
  {
  }

  /** The first property of three that is there at all. */
  function FirstThere(props: Value, client: Option<Value>): Option<Value> {
    var name, binary := Lookup(props, client, "application.name"), Lookup(props, client, "application.process.binary");
    if name.Some? then name else if binary.Some? then binary else Lookup(props, client, "node.description")
  }

  /** A string that says something. */
  predicate IsText(v: Option<Value>, text: string) {
    v == Some(Str(text)) && text != ""
  }

  /**
   Which label a process gets when no unit is known for it: the sandbox's own id if there is one; else what PipeWire was
   told; else the base name of the executable; else none.
   */
  lemma LabelOrder(props: Value, client: Option<Value>, pid: U32, proc: Proc, text: string)
    requires pid == 0 || proc.unit(pid).None?
    ensures var portal := Lookup(props, client, "pipewire.access.portal.app_id");
            var noPortal := forall t :: !IsText(portal, t);
            var nothing := noPortal && forall t :: !IsText(FirstThere(props, client), t);
            && (IsText(portal, text) ==> AppName(props, client, pid, proc) == text)
            && (noPortal && IsText(FirstThere(props, client), text) ==> AppName(props, client, pid, proc) == text)
            && (nothing && pid > 0 && proc.exe(pid) == Some(text) && text != "" ==>
                  AppName(props, client, pid, proc) == text)
            && (nothing && (pid == 0 || proc.exe(pid).None?) ==> AppName(props, client, pid, proc) == "unknown")
  {
    hide Lookup, HasSub;
    var portal := Lookup(props, client, "pipewire.access.portal.app_id");
    NoText(portal);
    NoText(FirstThere(props, client));
  }

  lemma NoText(v: Option<Value>)
    ensures NonEmpty(AsStr(v)).None? <==> forall t :: !IsText(v, t)
  {
    if NonEmpty(AsStr(v)).Some? {
      assert IsText(v, v.value.s);
    }
  }

  /** The text occurs in the other one. */
  ghost predicate OccursIn(sub: string, s: string) {
    exists before, after :: before + sub + after == s
  }

  lemma HasSubIs(s: string, sub: string)
    ensures HasSub(s, sub) <==> OccursIn(sub, s)
  {
    if i :| 0 <= i <= |s| && sub <= s[i..] {
      assert s[..i] + sub + s[i + |sub|..] == s;
    }
    if before, after :| before + sub + after == s {
      assert s[|before|..] == sub + after;
    }
  }

  /** With no other label the unit is the label. */
  lemma UnitIsTheLabel(props: Value, client: Option<Value>, pid: U32, proc: Proc, unit: string)
    requires pid > 0 && proc.unit(pid) == Some(unit) && unit != "" && proc.exe(pid).None?
    requires forall t :: !IsText(Lookup(props, client, "pipewire.access.portal.app_id"), t)
    requires forall t :: !IsText(FirstThere(props, client), t)
    ensures AppName(props, client, pid, proc) == unit
  {
    hide Lookup, HasSub;
    NoText(Lookup(props, client, "pipewire.access.portal.app_id"));
    NoText(FirstThere(props, client));
  }

  /** A known unit is noted after the label, unless the label says it already. */
  lemma UnitIsNoted(props: Value, client: Option<Value>, pid: U32, proc: Proc, unit: string)
    requires pid > 0 && proc.unit(pid) == Some(unit) && unit != ""
    ensures var bare := AppName(props, client, pid, proc.(unit := _ => None));
            var labelled := bare != "unknown";
            && (labelled && !OccursIn(unit, bare) ==> AppName(props, client, pid, proc) == bare + " [" + unit + "]")
            && (labelled && OccursIn(unit, bare) ==> AppName(props, client, pid, proc) == bare)
  {
    hide Lookup, HasSub;
    HasSubIs(AppName(props, client, pid, proc.(unit := _ => None)), unit);
    WholeOccurs(unit);
  }

  lemma WholeOccurs(s: string)
    ensures OccursIn(s, s)
  {
    assert "" + s + "" == s;
  }
}
