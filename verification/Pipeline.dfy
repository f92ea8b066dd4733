/** From a block of the graph stream to the fate of every link it leaves undecided. */
module Pipeline {
  import opened Text
  import opened Graph
  import opened Ledger
  import opened GraphRun
  import opened Enforcement
  import opened Common
  import opened Names
  import opened Rules

  /** What the decision path is handed, as matches by link id. */
  function MatchesOf(pending: seq<Pending>): (r: seq<Match>)
    ensures |r| == |pending|
  {
    seq(|pending|, i requires 0 <= i < |pending| => (pending[i].key.id, pending[i].linkMatch))
  }

  /** Every node sits under its own id. */
  predicate NodesKeyed(nodes: map<U32, NodeInfo>) {
    forall id | id in nodes :: nodes[id].id == id
  }

  lemma NodeStepKeyed(nodes: map<U32, NodeInfo>, obj: Value, clients: map<U32, Value>, proc: Proc)
    requires NodesKeyed(nodes)
    ensures NodesKeyed(NodeStep(nodes, obj, clients, proc))
  {
    hide KindOf, IsRemoval;
    var parsed := ParseNode(IdOf(obj), obj, clients, proc);
    assert parsed.Some? ==> parsed.value.id == IdOf(obj);
  }

  lemma {:induction false} NodesStayKeyed(nodes: map<U32, NodeInfo>, objects: seq<Value>, clients: map<U32, Value>,
                                          proc: Proc)
    requires NodesKeyed(nodes)
    ensures NodesKeyed(NodesAfter(nodes, objects, clients, proc))
  {
    hide NodeStep;
    if objects != [] {
      NodesStayKeyed(nodes, objects[..|objects| - 1], clients, proc);
      NodeStepKeyed(NodesAfter(nodes, objects[..|objects| - 1], clients, proc), objects[|objects| - 1], clients, proc);
    }
  }

  lemma {:induction false} RunKeepsNodesKeyed(us: seq<Update>)
    ensures NodesKeyed(After(us).graph.nodes)
  {
    hide NodesAfter, PortsAfter, LinksAfter, ClientsAfter, Reconciled;
    if us != [] {
      var w, u := After(us[..|us| - 1]), us[|us| - 1];
      RunKeepsNodesKeyed(us[..|us| - 1]);
      NodesStayKeyed(GraphBefore(w, u).nodes, u.objects, ClientsAfter(GraphBefore(w, u).clients, u.objects), u.proc);
    }
  }

  /** A match describes one of the graph's nodes. */
  lemma MatchedStream(l: PwLink, nodes: map<U32, NodeInfo>, devices: seq<Device>)
    requires Classify(l, nodes, devices).Some? && NodesKeyed(nodes)
    ensures var stream := Classify(l, nodes, devices).value.stream;
            stream.nodeId in nodes && stream == StreamOf(nodes[stream.nodeId])
  {
    hide FindDevice;
  }

  /**
   After every update of every run, what is handed to the decision path can be grouped: each link appears once, and a
   stream node has one description. So what `Enforce` promises holds of it.
   */
  lemma PendingCanBeEnforced(us: seq<Update>)
    requires us != [] && LegalRun(us)
    ensures var pending := Result(After(us[..|us| - 1]), us[|us| - 1]).pending;
            EachIdOnce(MatchesOf(pending)) && SameStreams(MatchesOf(pending))
  {
    hide After, Decisions, Result, MatchesOf;
    var w, u := After(us[..|us| - 1]), us[|us| - 1];
    Parts(us);
    DecisionsCanBeEnforced(EntriesBefore(w, u), u.order, ContextOf(w, u));
  }

  /** Matches that describe the graph's nodes agree on the streams they share. */
  lemma AboutNodes(pending: seq<Pending>, nodes: map<U32, NodeInfo>)
    requires forall p | p in pending ::
               p.linkMatch.stream.nodeId in nodes && p.linkMatch.stream == StreamOf(nodes[p.linkMatch.stream.nodeId])
    ensures SameStreams(MatchesOf(pending))
  {
    var matches := MatchesOf(pending);
    forall x | x in matches ensures x.1.stream.nodeId in nodes && x.1.stream == StreamOf(nodes[x.1.stream.nodeId]) {
      var i :| 0 <= i < |pending| && matches[i] == x;
      assert pending[i] in pending;
    }
  }

  lemma OneMatchEach(pending: seq<Pending>)
    requires forall i, j | 0 <= i < j < |pending| :: pending[i].key.id != pending[j].key.id
    ensures EachIdOnce(MatchesOf(pending))
  {
  }

  lemma Parts(us: seq<Update>)
    requires us != [] && LegalRun(us)
    ensures var w, u := After(us[..|us| - 1]), us[|us| - 1];
            && UniqueIds(u.order) && NodesKeyed(ContextOf(w, u).nodes)
            && Result(w, u).pending == Decisions(EntriesBefore(w, u), u.order, ContextOf(w, u))
  {
    hide Reconciled, Decisions, Applied;
    var w, u := After(us[..|us| - 1]), us[|us| - 1];
    EveryRunIsAccounted(us[..|us| - 1]);
    NextParts(w, u);
    RunKeepsNodesKeyed(us);
    assert After(us) == Next(w, u);
  }

  lemma FromClassify(prior: Option<Entry>, l: PwLink, c: Context, p: Pending)
    requires Decision(prior, l, c) == Some(p) && NodesKeyed(c.nodes)
    ensures p.linkMatch.stream.nodeId in c.nodes && p.linkMatch.stream == StreamOf(c.nodes[p.linkMatch.stream.nodeId])
  {
    hide Classify;
    MatchedStream(l, c.nodes, c.devices);
  }

  // ---------------------------------------------------------------------------
  // One update, from the ledger to the links
  // ---------------------------------------------------------------------------

  /** The link is between this device and this node: it comes out of the one, or else goes into it. */
  ghost predicate Between(l: PwLink, c: Context, d: Device, n: NodeInfo) {
    || (OutOf(d, l, c.nodes, c.devices) && n == c.nodes[l.inputNode])
    || (&& Into(d, l, c.nodes, c.devices) && n == c.nodes[l.outputNode]
        && forall other :: !OutOf(other, l, c.nodes, c.devices))
  }

  /** What the decision path gets for a link between a device and a node: those two, unless it is passed over. */
  lemma HandedAsBetween(entries: map<U32, Entry>, links: seq<PwLink>, c: Context, l: PwLink, d: Device, n: NodeInfo)
    requires UniqueIds(links) && l in links && Between(l, c, d, n)
    ensures var matches := MatchesOf(Decisions(entries, links, c));
            if TakenForDecided(Prior(entries, l.id), l) then forall x | x in matches :: x.0 != l.id
            else exists m :: (l.id, m) in matches && m.device == d && m.stream.appName == n.appName
  {
    hide OutOf, Into, Classify, Decision, Decisions, TakenForDecided, MatchesOf;
    var decisions, prior := Decisions(entries, links, c), Prior(entries, l.id);
    DecisionsAre(entries, links, c);
    DecidedIff(prior, l, c);
    ProtectedIff(l, c);
    MatchesHold(decisions, l.id);
    if !TakenForDecided(prior, l) {
      var p := Decision(prior, l, c).value;
      DecisionSays(prior, l, c);
      ClassifiedBetween(l, c, d, n, p.linkMatch);
      assert p in decisions;
      assert (l.id, p.linkMatch) in MatchesOf(decisions);
    } else {
      forall x | x in MatchesOf(decisions) ensures x.0 != l.id {
        if x.0 == l.id {
          assert (l.id, x.1) in MatchesOf(decisions);
          var p :| p in decisions && p.key.id == l.id && p.linkMatch == x.1;
          OnlyItsOwn(entries, links, c, l, p);
        }
      }
    }
  }

  lemma ClassifiedBetween(l: PwLink, c: Context, d: Device, n: NodeInfo, m: LinkMatch)
    requires Between(l, c, d, n) && Classify(l, c.nodes, c.devices) == Some(m)
    ensures m.device == d && m.stream.appName == n.appName
  {
    hide Classify, FirstListed;
    ClassifiedAs(l, c.nodes, c.devices, m);
    var end := if OutOf(d, l, c.nodes, c.devices) then l.inputNode else l.outputNode;
    ClassifiedAs(l, c.nodes, c.devices, LinkMatch(StreamOf(c.nodes[end]), d));
  }

  /** What is handed out under the id of a link is that link's decision. */
  lemma OnlyItsOwn(entries: map<U32, Entry>, links: seq<PwLink>, c: Context, l: PwLink, p: Pending)
    requires UniqueIds(links) && l in links && p in Decisions(entries, links, c) && p.key.id == l.id
    ensures Decision(Prior(entries, l.id), l, c) == Some(p)
  {
    hide Decision, Decisions;
    DecisionsAre(entries, links, c);
    var k :| k in links && Decision(Prior(entries, k.id), k, c) == Some(p);
    DecidedIff(Prior(entries, k.id), k, c);
    assert k == l;
  }

  lemma MatchesHold(pending: seq<Pending>, id: U32)
    ensures forall m :: (id, m) in MatchesOf(pending)
                   <==> exists p | p in pending :: p.key.id == id && p.linkMatch == m
  {
    forall m, p | p in pending && p.key.id == id && p.linkMatch == m ensures (id, m) in MatchesOf(pending) {
      var i :| 0 <= i < |pending| && pending[i] == p;
      assert MatchesOf(pending)[i] == (id, m);
    }
    forall m | (id, m) in MatchesOf(pending) ensures exists p | p in pending :: p.key.id == id && p.linkMatch == m {
      var i :| 0 <= i < |pending| && MatchesOf(pending)[i] == (id, m);
      assert pending[i] in pending;
    }
  }

  /** What is handed out can be enforced. */
  lemma DecisionsCanBeEnforced(entries: map<U32, Entry>, links: seq<PwLink>, c: Context)
    requires UniqueIds(links) && NodesKeyed(c.nodes)
    ensures EachIdOnce(MatchesOf(Decisions(entries, links, c)))
    ensures SameStreams(MatchesOf(Decisions(entries, links, c)))
  {
    hide Decisions, MatchesOf;
    var pending := Decisions(entries, links, c);
    DecisionsAre(entries, links, c);
    forall p | p in pending
      ensures p.linkMatch.stream.nodeId in c.nodes
      ensures p.linkMatch.stream == StreamOf(c.nodes[p.linkMatch.stream.nodeId])
    {
      var l :| l in links && Decision(Prior(entries, l.id), l, c) == Some(p);
      FromClassify(Prior(entries, l.id), l, c, p);
    }
    AboutNodes(pending, c.nodes);
    OneMatchEach(pending);
  }

  /**
   One update of the graph. A link between a device and a node, which the ledger does not take for a decided one, is
   destroyed if and only if the device's category is guarded and the node's application may not use it now; it becomes
   a connection if and only if the category is guarded and the application may. Any other link is left alone.
   */
  method HandleUpdate(ledger: LinkLedger, links: seq<PwLink>, c: Context, e: Environment)
    returns (destroyed: seq<U32>, tracked: seq<U32>)
    requires UniqueIds(links) && NodesKeyed(c.nodes)
    modifies ledger
    ensures ledger.entries == Reconciled(old(ledger.entries), old(ledger.counts), links, c).entries
    ensures forall l, d, n | l in links && Between(l, c, d, n) ::
              var p := GetPermission(e.rules, e.default, n.appName, d.category);
              var decided := d.category in e.guarded && !TakenForDecided(Prior(old(ledger.entries), l.id), l);
              && (l.id in tracked
                  <==> decided && !e.blockAll && (p == Allow || (p == WhileInUse && e.live(n.appName, d.category))))
              && (l.id in destroyed <==> decided && l.id !in tracked)
    ensures forall id | id in destroyed || id in tracked ::
              exists l, d, n :: l in links && l.id == id && Between(l, c, d, n)
  {
    hide Reconciled, Decisions, MatchesOf, TakenForDecided, GetPermission, Between, EachIdOnce, SameStreams, Grouped;
    ghost var entries := ledger.entries;
    ReconciledOutputs(entries, ledger.counts, links, c);
    DecisionsCanBeEnforced(entries, links, c);
    var pending := ledger.Reconcile(links, c);
    var matches := MatchesOf(pending);
    destroyed, tracked := Enforce(matches, _ => e);
    forall l, d, n | l in links && Between(l, c, d, n)
      ensures var p := GetPermission(e.rules, e.default, n.appName, d.category);
              var decided := d.category in e.guarded && !TakenForDecided(Prior(entries, l.id), l);
              && (l.id in tracked
                  <==> decided && !e.blockAll && (p == Allow || (p == WhileInUse && e.live(n.appName, d.category))))
              && (l.id in destroyed <==> decided && l.id !in tracked)
    {
      HandedAsBetween(entries, links, c, l, d, n);
      if !TakenForDecided(Prior(entries, l.id), l) {
        var m :| (l.id, m) in matches && m.device == d && m.stream.appName == n.appName;
        EachLinkInAGroup(matches, (l.id, m));
      }
    }
    forall id | id in destroyed || id in tracked
      ensures exists l, d, n :: l in links && l.id == id && Between(l, c, d, n)
    {
      var x :| x in matches && x.0 == id;
      HandedIsBetween(entries, links, c, x);
    }
  }

  /** Whatever is handed out is a link between some device and some node. */
  lemma HandedIsBetween(entries: map<U32, Entry>, links: seq<PwLink>, c: Context, x: Match)
    requires UniqueIds(links) && x in MatchesOf(Decisions(entries, links, c))
    ensures exists l, d, n :: l in links && l.id == x.0 && Between(l, c, d, n)
  {
    hide Decisions, MatchesOf, Decision, Classify, FirstListed;
    var decisions := Decisions(entries, links, c);
    MatchesHold(decisions, x.0);
    assert (x.0, x.1) in MatchesOf(decisions);
    var p :| p in decisions && p.key.id == x.0 && p.linkMatch == x.1;
    DecisionsAre(entries, links, c);
    var l :| l in links && Decision(Prior(entries, l.id), l, c) == Some(p);
    DecidedIff(Prior(entries, l.id), l, c);
    DecisionSays(Prior(entries, l.id), l, c);
    ClassifiedAs(l, c.nodes, c.devices, x.1);
    var end := if OutOf(x.1.device, l, c.nodes, c.devices) then l.inputNode else l.outputNode;
    assert Between(l, c, x.1.device, c.nodes[end]);
  }

  /**
   A rule that was just set decides the next update: for every link of an application whose name has the stored key, to
   a device of that category, a denial or a question destroys it and an allowance keeps it, if the category is guarded,
   not everything is blocked and the ledger does not take the link for a decided one.
   */
  method SetThenHandle(config: Config, name: string, category: Category, p: Permission, ledger: LinkLedger,
                       links: seq<PwLink>, c: Context, guarded: set<Category>, blockAll: bool,
                       live: (string, Category) -> bool)
    returns (ok: bool, destroyed: seq<U32>, tracked: seq<U32>)
    requires UniqueIds(links) && NodesKeyed(c.nodes)
    modifies config, ledger
    ensures ok <==> Sanitize(name).Some? && !(category == Camera && p == WhileInUse)
    ensures ok ==> forall l, d, n | l in links && Between(l, c, d, n) && d.category == category && category in guarded
                                    && Normalize(n.appName) == Sanitize(name).value
                                    && !TakenForDecided(Prior(old(ledger.entries), l.id), l) ::
              && (p == Deny || p == Ask || blockAll ==> l.id in destroyed && l.id !in tracked)
              && (p == Allow && !blockAll ==> l.id in tracked && l.id !in destroyed)
              && (p == WhileInUse && !blockAll ==> (l.id in tracked <==> live(n.appName, category)))
    ensures ok ==> forall l, d, n | l in links && Between(l, c, d, n) && d.category in guarded
                                    && (d.category != category || Normalize(n.appName) != Sanitize(name).value)
                                    && !TakenForDecided(Prior(old(ledger.entries), l.id), l) ::
              var was := GetPermission(old(config.rules), old(config.defaultAction), n.appName, d.category);
              l.id in tracked <==> !blockAll && (was == Allow || (was == WhileInUse && live(n.appName, d.category)))
  {
    hide TakenForDecided, GetPermission, Between, Normalize, Sanitize, AfterSet, Reconciled, NodesKeyed;
    ghost var rules := config.rules;
    ok := config.SetRule(name, category, p);
    destroyed, tracked := HandleUpdate(ledger, links, c,
                                       Environment(config.rules, config.defaultAction, guarded, blockAll, live));
    if ok {
      forall asked, d ensures GetPermission(config.rules, config.defaultAction, asked, d)
        == if Normalize(asked) == Sanitize(name).value && d == category then p
           else GetPermission(rules, config.defaultAction, asked, d)
      {
        SetAnswers(rules, config.defaultAction, name, category, p, asked, d);
      }
    }
  }

  // ---------------------------------------------------------------------------
  // After a denial
  // ---------------------------------------------------------------------------

  /**
   Check after a grace period, retry once, check again. `first` and `second` are the ledger at the two checks; other
   updates may have come between. Only links that are still there under their own serial are destroyed again, so an id
   that now belongs to somebody else is left alone.
   */
  method VerifyDenial(links: seq<LinkKey>, first: map<U32, Entry>, second: map<U32, Entry>)
    returns (destroyed: seq<U32>, survivors: seq<LinkKey>)
    ensures forall id :: id in destroyed
                    <==> exists k | k in links :: k.id == id && id in first && first[id].serial == k.serial
    ensures forall k :: k in survivors
                   <==> && k in links && k.id in first && first[k.id].serial == k.serial
                        && k.id in second && second[k.id].serial == k.serial
  {
    var alive := Alive(first, links);
    if alive == [] {
      assert forall k | k in links :: k !in alive;
      return [], [];
    }
    destroyed := [];
    for i := 0 to |alive|
      invariant forall id :: id in destroyed <==> exists j :: 0 <= j < i && alive[j].id == id
    {
      destroyed := destroyed + [alive[i].id];
    }
    survivors := Alive(second, alive);
    forall id ensures id in destroyed
                 <==> exists k | k in links :: k.id == id && id in first && first[id].serial == k.serial {
      if k :| k in links && k.id == id && id in first && first[id].serial == k.serial {
        assert k in alive;
      }
      if j :| 0 <= j < |alive| && alive[j].id == id {
        assert alive[j] in alive;
      }
    }
  }
}
