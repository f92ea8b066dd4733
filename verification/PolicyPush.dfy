/**
 The helper's side of a push: replacing the policy map, the capture minors and the configuration while opens go on.
 */
module PolicyPush {
  import opened Text
  import opened Common
  import opened Kernel

  const POLICY_MAX: nat := 1024
  const MINORS_MAX: nat := 64

  datatype Unresolved = NotAbsolute(exePath: string) | NotFound(exePath: string)

  /** Which part of a push could not be written. */
  datatype Failure = PolicyNotWritten | MinorsNotWritten

  datatype Reply = PolicyApplied(applied: nat, unresolved: seq<Unresolved>) | Error(why: Failure)

  predicate IsAbsolute(path: string) {
    path != "" && path[0] == '/'
  }

  /** The key an entry stands for; `stat` finds the inode behind an absolute path. */
  function KeyOf(path: string, stat: string -> Option<ExeKey>): Option<ExeKey> {
    if IsAbsolute(path) then stat(path) else None
  }

  function BitsOf(m: map<ExeKey, Perms>, k: ExeKey): Perms {
    if k in m then m[k] else 0
  }

  /** The map an entry list asks for: bits OR-ed per executable. */
  function Wanted(entries: seq<PolicyEntry>, stat: string -> Option<ExeKey>): map<ExeKey, Perms> {
    if entries == [] then map[]
    else
      var front, e := Wanted(entries[..|entries| - 1], stat), entries[|entries| - 1];
      match KeyOf(e.exePath, stat)
      case Some(k) => front[k := Or(BitsOf(front, k), e.perms)]
      case None => front
  }

  function UnresolvedOf(entries: seq<PolicyEntry>, stat: string -> Option<ExeKey>): seq<Unresolved> {
    if entries == [] then []
    else
      var front, e := UnresolvedOf(entries[..|entries| - 1], stat), entries[|entries| - 1];
      if !IsAbsolute(e.exePath) then front + [NotAbsolute(e.exePath)]
      else if stat(e.exePath).None? then front + [NotFound(e.exePath)] else front
  }

  /** Some entry resolves to this key and carries one of these bits. */
  predicate Asks(entries: seq<PolicyEntry>, stat: string -> Option<ExeKey>, k: ExeKey, mask: Perms) {
    exists e | e in entries :: KeyOf(e.exePath, stat) == Some(k) && Has(e.perms, mask)
  }

  /**
   An executable is on the list exactly when the file behind some absolute path is it, and has a bit exactly when one of
   those paths carries it.
   */
  lemma {:induction false} WantedMeans(entries: seq<PolicyEntry>, stat: string -> Option<ExeKey>, k: ExeKey,
                                       mask: Perms)
    ensures k in Wanted(entries, stat)
       <==> exists e | e in entries :: e.exePath != "" && e.exePath[0] == '/' && stat(e.exePath) == Some(k)
    ensures k in Wanted(entries, stat) && Has(Wanted(entries, stat)[k], mask)
       <==> exists e | e in entries ::
              e.exePath != "" && e.exePath[0] == '/' && stat(e.exePath) == Some(k) && Has(e.perms, mask)
  {
    hide Has, Or;
    ZeroHasNone(mask);
    if entries != [] {
      var front, e := entries[..|entries| - 1], entries[|entries| - 1];
      assert entries == front + [e];
      WantedMeans(front, stat, k, mask);
      OrHas(BitsOf(Wanted(front, stat), k), e.perms, mask);
      assert forall x | x in entries :: x in front || x == e;
    }
  }

  /** The same in terms of keys. */
  lemma WantedByKey(entries: seq<PolicyEntry>, stat: string -> Option<ExeKey>, k: ExeKey, mask: Perms)
    ensures k in Wanted(entries, stat) <==> exists e | e in entries :: KeyOf(e.exePath, stat) == Some(k)
    ensures k in Wanted(entries, stat) && Has(Wanted(entries, stat)[k], mask) <==> Asks(entries, stat, k, mask)
  {
    hide Has, Wanted;
    WantedMeans(entries, stat, k, mask);
  }

  /** What a push reports as unresolved: the paths that are not absolute, and those with no file behind them. */
  lemma {:induction false} UnresolvedAre(entries: seq<PolicyEntry>, stat: string -> Option<ExeKey>, path: string)
    ensures NotAbsolute(path) in UnresolvedOf(entries, stat)
       <==> (path == "" || path[0] != '/') && exists e | e in entries :: e.exePath == path
    ensures NotFound(path) in UnresolvedOf(entries, stat)
       <==> path != "" && path[0] == '/' && stat(path).None? && exists e | e in entries :: e.exePath == path
  {
    if entries != [] {
      var front, e := entries[..|entries| - 1], entries[|entries| - 1];
      assert entries == front + [e];
      UnresolvedAre(front, stat, path);
      assert forall x :: x in entries <==> x in front || x == e;
    }
  }

  // ---------------------------------------------------------------------------
  // What an open can see while a push goes on
  // ---------------------------------------------------------------------------

  /** Each key has its old or its new value, and a key in both is there. */
  ghost predicate PolicyBetween(o: map<ExeKey, Perms>, n: map<ExeKey, Perms>, t: map<ExeKey, Perms>) {
    && (forall k | k in t :: (k in o && t[k] == o[k]) || (k in n && t[k] == n[k]))
    && (forall k | k in o && k in n :: k in t)
  }

  ghost predicate Between(o: Enforcement, n: Enforcement, t: Enforcement) {
    && PolicyBetween(o.policy, n.policy, t.policy)
    && o.minors * n.minors <= t.minors <= o.minors + n.minors
    && (t.config == o.config || t.config == n.config)
  }

  /** An executable granted before and after is not denied in between. */
  lemma GrantedInBothIsNeverDenied(o: Enforcement, n: Enforcement, t: Enforcement, exe: ExeKey, minor: nat)
    requires Between(o, n, t)
    ensures o.Granted(exe, PERM_CAMERA) && n.Granted(exe, PERM_CAMERA) ==> !t.Denies(exe, V4L2_MAJOR, minor)
    ensures o.Granted(exe, PERM_AUDIO) && n.Granted(exe, PERM_AUDIO) ==> !t.Denies(exe, ALSA_MAJOR, minor)
  {
    hide Has;
  }

  /** An executable granted neither before nor after is denied throughout, if enforcement is on before and after. */
  lemma GrantedInNeitherIsDenied(o: Enforcement, n: Enforcement, t: Enforcement, exe: ExeKey, minor: nat)
    requires Between(o, n, t) && o.config.Some? && n.config.Some?
    ensures (&& !o.Granted(exe, PERM_CAMERA) && !n.Granted(exe, PERM_CAMERA)
             && o.config.value.enforceCamera && n.config.value.enforceCamera) ==> t.Denies(exe, V4L2_MAJOR, minor)
    ensures (&& !o.Granted(exe, PERM_AUDIO) && !n.Granted(exe, PERM_AUDIO) && minor in o.minors * n.minors
             && o.config.value.enforceAudio && n.config.value.enforceAudio) ==> t.Denies(exe, ALSA_MAJOR, minor)
  {
    hide Has;
  }

  /** At most one map operation: a key written or removed, a minor written or removed, the configuration written. */
  ghost predicate OneOperation(a: Enforcement, b: Enforcement) {
    || b == a
    || (exists k | k in b.policy :: b == a.(policy := a.policy[k := b.policy[k]]))
    || (exists k :: b == a.(policy := a.policy - {k}))
    || (exists m :: b == a.(minors := a.minors + {m}))
    || (exists m :: b == a.(minors := a.minors - {m}))
    || (exists c :: b == a.(config := Some(c)))
  }

  /**
   What the maps went through since `before`, starting from `o` and now at `now`: no state is left out, each follows
   from the one before it by one map operation, and each lies between `o` and `n`.
   */
  ghost predicate Passing(trail: seq<Enforcement>, before: seq<Enforcement>, o: Enforcement, n: Enforcement,
                          now: Enforcement) {
    && before <= trail
    && (forall i | |before| <= i < |trail| :: Between(o, n, trail[i]))
    && (forall i | |before| <= i < |trail| :: OneOperation(StateBefore(trail, |before|, o, i), trail[i]))
    && now == StateBefore(trail, |before|, o, |trail|)
  }

  /** The state before step `i`, when the steps from `start` on began at `o`. */
  function StateBefore(trail: seq<Enforcement>, start: nat, o: Enforcement, i: nat): Enforcement
    requires start <= i <= |trail|
  {
    if i == start then o else trail[i - 1]
  }

  lemma PassingStarts(trail: seq<Enforcement>, o: Enforcement, n: Enforcement)
    ensures Passing(trail, trail, o, n, o)
  {
  }

  lemma PassingGrows(trail: seq<Enforcement>, before: seq<Enforcement>, o: Enforcement, n: Enforcement,
                     now: Enforcement,
                     t: Enforcement)
    requires Passing(trail, before, o, n, now) && OneOperation(now, t) && Between(o, n, t)
    ensures Passing(trail + [t], before, o, n, t)
  {
    hide Between, OneOperation;
    var longer, start := trail + [t], |before|;
    assert forall i | 0 <= i < |trail| :: longer[i] == trail[i];
    forall i | start <= i < |longer| ensures OneOperation(StateBefore(longer, start, o, i), longer[i]) {
      assert StateBefore(longer, start, o, i) == StateBefore(trail, start, o, i);
    }
  }

  // ---------------------------------------------------------------------------
  // The push
  // ---------------------------------------------------------------------------

  class Tables {
    var policy: map<ExeKey, Perms>
    var minors: set<nat>
    var config: Option<Config>
    var enforcing: bool
    var enforcingAudio: bool
    /** Every state the maps have been in, one per map operation. */
    ghost var trail: seq<Enforcement>

    function Now(): Enforcement
      reads this
    {
      Enforcement(policy, minors, config)
    }

    constructor ()
      ensures Now() == Enforcement(map[], {}, None) && trail == []
    {
      policy, minors, config, enforcing, enforcingAudio, trail := map[], {}, None, false, false, [];
    }

    /** A key already there is overwritten; a new one needs room. */
    method Update(k: ExeKey, v: Perms) returns (ok: bool)
      modifies `policy, `trail
      ensures ok == (k in old(policy) || |old(policy)| < POLICY_MAX)
      ensures policy == if ok then old(policy)[k := v] else old(policy)
      ensures trail == old(trail) + [Now()] && OneOperation(old(Now()), Now())
    {
      ok := k in policy || |policy| < POLICY_MAX;
      if ok {
        policy := policy[k := v];
      }
      trail := trail + [Now()];
    }

    method Delete(k: ExeKey)
      modifies `policy, `trail
      ensures policy == old(policy) - {k}
      ensures trail == old(trail) + [Now()] && OneOperation(old(Now()), Now())
    {
      policy := policy - {k};
      trail := trail + [Now()];
    }

    method AddMinor(m: nat) returns (ok: bool)
      modifies `minors, `trail
      ensures ok == (m in old(minors) || |old(minors)| < MINORS_MAX)
      ensures minors == if ok then old(minors) + {m} else old(minors)
      ensures trail == old(trail) + [Now()] && OneOperation(old(Now()), Now())
    {
      ok := m in minors || |minors| < MINORS_MAX;
      if ok {
        minors := minors + {m};
      }
      trail := trail + [Now()];
    }

    method DeleteMinor(m: nat)
      modifies `minors, `trail
      ensures minors == old(minors) - {m}
      ensures trail == old(trail) + [Now()] && OneOperation(old(Now()), Now())
    {
      minors := minors - {m};
      trail := trail + [Now()];
    }

    method WriteConfig(c: Config)
      modifies `config, `trail
      ensures config == Some(c)
      ensures trail == old(trail) + [Now()] && OneOperation(old(Now()), Now())
    {
      config := Some(c);
      trail := trail + [Now()];
    }
  }

  method Resolve(entries: seq<PolicyEntry>, stat: string -> Option<ExeKey>)
    returns (wanted: map<ExeKey, Perms>, unresolved: seq<Unresolved>)
    ensures wanted == Wanted(entries, stat) && unresolved == UnresolvedOf(entries, stat)
  {
    hide Or;
    wanted, unresolved := map[], [];
    assert entries[..0] == [];
    for i := 0 to |entries|
      invariant wanted == Wanted(entries[..i], stat) && unresolved == UnresolvedOf(entries[..i], stat)
    {
      var e := entries[i];
      assert entries[..i + 1][..i] == entries[..i];
      if !IsAbsolute(e.exePath) {
        unresolved := unresolved + [NotAbsolute(e.exePath)];
      } else {
        match stat(e.exePath) {
          case Some(k) => wanted := wanted[k := Or(BitsOf(wanted, k), e.perms)];
          case None => unresolved := unresolved + [NotFound(e.exePath)];
        }
      }
    }
    assert entries[..|entries|] == entries;
  }

  // While entries are being written: `left` is still to come.

  function Written(was: map<ExeKey, Perms>, wanted: map<ExeKey, Perms>, left: set<ExeKey>): map<ExeKey, Perms> {
    was + (wanted - left)
  }

  lemma Adding(was: map<ExeKey, Perms>, wanted: map<ExeKey, Perms>, left: set<ExeKey>)
    ensures PolicyBetween(was, wanted, Written(was, wanted, left))
    ensures left == {} ==> Written(was, wanted, left) == was + wanted
    ensures left == wanted.Keys ==> Written(was, wanted, left) == was
  {
  }

  lemma AddOne(was: map<ExeKey, Perms>, wanted: map<ExeKey, Perms>, left: set<ExeKey>, k: ExeKey)
    requires k in left && k in wanted
    ensures Written(was, wanted, left)[k := wanted[k]] == Written(was, wanted, left - {k})
  {
  }

  lemma OneTooMany(held: set<ExeKey>, k: ExeKey, all: set<ExeKey>)
    requires held + {k} <= all && k !in held
    ensures |all| > |held|
  {
    SubsetCard(held + {k}, all);
  }

  /** A key that does not fit: old and new keys together are too many. */
  lemma NoRoom(was: map<ExeKey, Perms>, wanted: map<ExeKey, Perms>, left: set<ExeKey>, k: ExeKey)
    requires k in wanted && k !in Written(was, wanted, left)
    ensures |Written(was, wanted, left)| < |was.Keys + wanted.Keys|
  {
    var held := Written(was, wanted, left).Keys;
    assert |Written(was, wanted, left)| == |held|;
    OneTooMany(held, k, was.Keys + wanted.Keys);
  }

  lemma AllThere(was: map<ExeKey, Perms>, wanted: map<ExeKey, Perms>)
    ensures |was + wanted| == |was.Keys + wanted.Keys|
  {
    assert (was + wanted).Keys == was.Keys + wanted.Keys;
  }

  /** With the minors and the configuration as they were, only the policy matters. */
  lemma OnlyPolicyMoves(o: Enforcement, n: Enforcement, policy: map<ExeKey, Perms>)
    requires PolicyBetween(o.policy, n.policy, policy)
    ensures Between(o, n, o.(policy := policy))
  {
    hide PolicyBetween;
  }

  method AddNext(t: Tables, wanted: map<ExeKey, Perms>, k: ExeKey, ghost left: set<ExeKey>,
                 ghost before: seq<Enforcement>,
                 ghost o: Enforcement, ghost n: Enforcement)
    returns (ok: bool)
    modifies t`policy, t`trail
    requires k in wanted && k in left && wanted == n.policy && t.Now() == o.(policy := Written(o.policy, wanted, left))
    requires |t.policy| <= POLICY_MAX && Passing(t.trail, before, o, n, t.Now())
    ensures t.policy == Written(o.policy, wanted, if ok then left - {k} else left)
    ensures !ok ==> |o.policy.Keys + wanted.Keys| > POLICY_MAX && |t.policy| == POLICY_MAX && k !in t.policy
    ensures |t.policy| <= POLICY_MAX && Passing(t.trail, before, o, n, t.Now())
  {
    hide Passing, PolicyBetween, OneOperation, Between, Written;
    ghost var trail, was := t.trail, t.Now();
    AddOne(o.policy, wanted, left, k);
    Adding(o.policy, wanted, left);
    Adding(o.policy, wanted, left - {k});
    if k !in t.policy {
      NoRoom(o.policy, wanted, left, k);
    }
    ok := t.Update(k, wanted[k]);
    OnlyPolicyMoves(o, n, t.policy);
    PassingGrows(trail, before, o, n, was, t.Now());
  }

  /**
   Write what is wanted. If a key does not fit the writing stops there: some of the wanted entries are in, the map is
   full and nothing has been removed.
   */
  method AddWanted(t: Tables, wanted: map<ExeKey, Perms>, ghost n: Enforcement) returns (ok: bool,
                   ghost left: set<ExeKey>)
    modifies t`policy, t`trail
    requires |t.policy| <= POLICY_MAX && wanted == n.policy
    ensures ok <==> |old(t.policy).Keys + wanted.Keys| <= POLICY_MAX
    ensures left <= wanted.Keys && t.policy == Written(old(t.policy), wanted, left)
    ensures if ok then left == {} else |t.policy| == POLICY_MAX && exists k :: k in left && k !in t.policy
    ensures |t.policy| <= POLICY_MAX && Passing(t.trail, old(t.trail), old(t.Now()), n, t.Now())
  {
    hide Passing, PolicyBetween, Written;
    ghost var o := t.Now();
    PassingStarts(t.trail, o, n);
    Adding(o.policy, wanted, wanted.Keys);
    var rest := wanted.Keys;
    while rest != {}
      invariant rest <= wanted.Keys
      invariant t.policy == Written(o.policy, wanted, rest) && |t.policy| <= POLICY_MAX
      invariant Passing(t.trail, old(t.trail), o, n, t.Now())
      decreases |rest|
    {
      var k :| k in rest;
      ok := AddNext(t, wanted, k, rest, old(t.trail), o, n);
      if !ok {
        return false, rest;
      }
      rest := rest - {k};
    }
    Adding(o.policy, wanted, {});
    AllThere(o.policy, wanted);
    return true, {};
  }

  // While stale keys are being removed: everything wanted is there, and `stale` is still to go.

  function Only(m: map<ExeKey, Perms>, keys: set<ExeKey>): map<ExeKey, Perms> {
    map k | k in m && k in keys :: m[k]
  }

  lemma Removing(was: map<ExeKey, Perms>, wanted: map<ExeKey, Perms>, stale: set<ExeKey>)
    requires stale !! wanted.Keys
    ensures PolicyBetween(was, wanted, wanted + Only(was, stale))
    ensures stale == {} ==> wanted + Only(was, stale) == wanted
  {
  }

  lemma RemovingStarts(was: map<ExeKey, Perms>, wanted: map<ExeKey, Perms>)
    ensures was + wanted == wanted + Only(was, (was + wanted).Keys - wanted.Keys)
  {
  }

  lemma RemoveOne(was: map<ExeKey, Perms>, wanted: map<ExeKey, Perms>, stale: set<ExeKey>, k: ExeKey)
    requires k !in wanted
    ensures (wanted + Only(was, stale)) - {k} == wanted + Only(was, stale - {k})
  {
  }

  method RemoveNext(t: Tables, k: ExeKey, ghost stale: set<ExeKey>, ghost before: seq<Enforcement>,
                    ghost o: Enforcement, ghost n: Enforcement)
    modifies t`policy, t`trail
    requires k in stale && stale !! n.policy.Keys && t.Now() == o.(policy := n.policy + Only(o.policy, stale))
    requires Passing(t.trail, before, o, n, t.Now())
    ensures t.policy == n.policy + Only(o.policy, stale - {k})
    ensures Passing(t.trail, before, o, n, t.Now())
  {
    hide Passing, PolicyBetween, Only, OneOperation, Between;
    ghost var trail, was := t.trail, t.Now();
    RemoveOne(o.policy, n.policy, stale, k);
    Removing(o.policy, n.policy, stale - {k});
    t.Delete(k);
    OnlyPolicyMoves(o, n, t.policy);
    PassingGrows(trail, before, o, n, was, t.Now());
  }

  method RemoveStale(t: Tables, wanted: map<ExeKey, Perms>, ghost before: seq<Enforcement>, ghost o: Enforcement,
                     ghost n: Enforcement)
    modifies t`policy, t`trail
    requires wanted == n.policy && t.Now() == o.(policy := o.policy + wanted)
    requires Passing(t.trail, before, o, n, t.Now())
    ensures t.policy == wanted
    ensures Passing(t.trail, before, o, n, t.Now())
  {
    hide Passing, PolicyBetween, Only;
    RemovingStarts(o.policy, wanted);
    var stale := t.policy.Keys - wanted.Keys;
    while stale != {}
      invariant stale !! wanted.Keys
      invariant t.policy == wanted + Only(o.policy, stale)
      invariant Passing(t.trail, before, o, n, t.Now())
      decreases |stale|
    {
      var k :| k in stale;
      RemoveNext(t, k, stale, before, o, n);
      stale := stale - {k};
    }
    Removing(o.policy, wanted, {});
  }

  /**
   What a push that does not fit leaves: the old policy, a part of the wanted one over it, and no room for the rest.
   */
  ghost predicate PartlyWritten(was: map<ExeKey, Perms>, wanted: map<ExeKey, Perms>, now: map<ExeKey, Perms>) {
    && |now| == POLICY_MAX
    && exists left :: left <= wanted.Keys && now == Written(was, wanted, left) && exists k :: k in left && k !in now
  }

  /**
   The push goes through exactly when old and new keys fit the map together; then the map is the wanted one. Otherwise
   it is left partly written.
   */
  method ReplacePolicy(t: Tables, entries: seq<PolicyEntry>, stat: string -> Option<ExeKey>, ghost n: Enforcement)
    returns (r: Reply)
    requires |t.policy| <= POLICY_MAX && n.policy == Wanted(entries, stat)
    modifies t`policy, t`trail
    ensures r == if |old(t.policy).Keys + Wanted(entries, stat).Keys| <= POLICY_MAX
                 then PolicyApplied(|Wanted(entries, stat)|, UnresolvedOf(entries, stat)) else Error(PolicyNotWritten)
    ensures if r.PolicyApplied? then t.policy == Wanted(entries, stat)
            else PartlyWritten(old(t.policy), Wanted(entries, stat), t.policy)
    ensures |t.policy| <= POLICY_MAX && Passing(t.trail, old(t.trail), old(t.Now()), n, t.Now())
  {
    hide Wanted, UnresolvedOf, Passing;
    ghost var o := t.Now();
    var wanted, unresolved := Resolve(entries, stat);
    var ok;
    ghost var left;
    ok, left := AddWanted(t, wanted, n);
    if !ok {
      return Error(PolicyNotWritten);
    }
    Adding(o.policy, wanted, {});
    RemoveStale(t, wanted, old(t.trail), o, n);
    SubsetCard(wanted.Keys, o.policy.Keys + wanted.Keys);
    return PolicyApplied(|wanted|, unresolved);
  }

  // ---------------------------------------------------------------------------
  // The capture minors and the whole request
  // ---------------------------------------------------------------------------

  /** With the new policy in place and the old configuration, only the minors matter. */
  lemma OnlyMinorsMove(o: Enforcement, n: Enforcement, t: Enforcement)
    requires t.policy == n.policy && t.config == o.config && o.minors * n.minors <= t.minors <= o.minors + n.minors
    ensures Between(o, n, t)
  {
  }

  lemma DropOne(kept: set<nat>, gone: set<nat>, m: nat)
    requires kept !! gone && m in gone
    ensures (kept + gone) - {m} == kept + (gone - {m}) && |gone - {m}| < |gone|
  {
  }

  method DropMinors(t: Tables, found: set<nat>, ghost before: seq<Enforcement>, ghost o: Enforcement,
                    ghost n: Enforcement)
    modifies t`minors, t`trail
    requires t.minors == o.minors && found == n.minors && t.policy == n.policy && t.config == o.config
    requires Passing(t.trail, before, o, n, t.Now())
    ensures t.minors == o.minors * found && Passing(t.trail, before, o, n, t.Now())
  {
    hide Passing, Between, OneOperation;
    var gone := t.minors - found;
    while gone != {}
      invariant gone !! found && t.minors == (o.minors * found) + gone && gone <= o.minors
      invariant Passing(t.trail, before, o, n, t.Now())
      decreases |gone|
    {
      var m :| m in gone;
      DropOne(o.minors * found, gone, m);
      gone := gone - {m};
      ghost var trail, was := t.trail, t.Now();
      t.DeleteMinor(m);
      OnlyMinorsMove(o, n, t.Now());
      PassingGrows(trail, before, o, n, was, t.Now());
    }
  }

  method AddMinors(t: Tables, found: set<nat>, ghost before: seq<Enforcement>, ghost o: Enforcement,
                   ghost n: Enforcement)
    returns (ok: bool)
    modifies t`minors, t`trail
    requires |t.minors| <= MINORS_MAX && t.minors == o.minors * found && found == n.minors
    requires t.policy == n.policy && t.config == o.config && Passing(t.trail, before, o, n, t.Now())
    ensures ok <==> |found| <= MINORS_MAX
    ensures if ok then t.minors == found else o.minors * found <= t.minors < found && |t.minors| == MINORS_MAX
    ensures |t.minors| <= MINORS_MAX && Passing(t.trail, before, o, n, t.Now())
  {
    hide Passing, Between, OneOperation;
    var left := found;
    while left != {}
      invariant left <= found && o.minors * found <= t.minors <= found && found - left <= t.minors
      invariant |t.minors| <= MINORS_MAX && Passing(t.trail, before, o, n, t.Now())
      decreases |left|
    {
      var m :| m in left;
      left := left - {m};
      SubsetCard(t.minors, found);
      ghost var trail, was := t.trail, t.Now();
      ok := t.AddMinor(m);
      OnlyMinorsMove(o, n, t.Now());
      PassingGrows(trail, before, o, n, was, t.Now());
      if !ok {
        return;
      }
    }
    assert t.minors == found;
    ok := true;
  }

  /** Minors that are gone are removed before the current ones are added. */
  method PushCaptureMinors(t: Tables, found: set<nat>, ghost before: seq<Enforcement>, ghost o: Enforcement,
                           ghost n: Enforcement)
    returns (ok: bool)
    modifies t`minors, t`trail
    requires |t.minors| <= MINORS_MAX && t.minors == o.minors && found == n.minors
    requires t.policy == n.policy && t.config == o.config && Passing(t.trail, before, o, n, t.Now())
    ensures ok <==> |found| <= MINORS_MAX
    ensures if ok then t.minors == found else o.minors * found <= t.minors < found && |t.minors| == MINORS_MAX
    ensures |t.minors| <= MINORS_MAX && Passing(t.trail, before, o, n, t.Now())
  {
    hide Passing;
    SubsetCard(o.minors * found, o.minors);
    DropMinors(t, found, before, o, n);
    ok := AddMinors(t, found, before, o, n);
  }

  /** What a request asks the maps to be. */
  function Target(entries: seq<PolicyEntry>, stat: string -> Option<ExeKey>, found: set<nat>,
                  config: Config): Enforcement {
    Enforcement(Wanted(entries, stat), found, Some(config))
  }

  /**
   What a failed request leaves. A policy that does not fit: part of it over the old one, minors and configuration as
   they were. Minors that do not fit: the whole new policy, the minors full of current ones, the configuration as it
   was.
   */
  ghost predicate LeftAfter(why: Failure, o: Enforcement, n: Enforcement, now: Enforcement) {
    && now.config == o.config
    && match why
       case PolicyNotWritten => now.minors == o.minors && PartlyWritten(o.policy, n.policy, now.policy)
       case MinorsNotWritten =>
         now.policy == n.policy && o.minors * n.minors <= now.minors < n.minors && |now.minors| == MINORS_MAX
  }

  lemma ConfigIsBetween(o: Enforcement, n: Enforcement)
    ensures Between(o, n, n)
  {
  }

  /**
   One policy request. Whatever happens, every state of the maps on the way lies between the old and the requested one.
   It succeeds exactly when the policy and the minors fit; then the maps are the requested ones, and the entries as
   sent, resolved or not, are what is cached for the next boot. Otherwise the reply says which part did not fit, and
   grants already written stay written.
   */
  method SetPolicy(t: Tables, entries: seq<PolicyEntry>, config: Config, stat: string -> Option<ExeKey>,
                   found: set<nat>)
    returns (r: Reply, cached: Option<seq<PolicyEntry>>)
    modifies t
    requires |t.policy| <= POLICY_MAX && |t.minors| <= MINORS_MAX
    ensures |t.policy| <= POLICY_MAX && |t.minors| <= MINORS_MAX
    ensures Passing(t.trail, old(t.trail), old(t.Now()), Target(entries, stat, found, config), t.Now())
    ensures r == if |old(t.policy).Keys + Wanted(entries, stat).Keys| > POLICY_MAX then Error(PolicyNotWritten)
                 else if |found| > MINORS_MAX then Error(MinorsNotWritten)
                 else PolicyApplied(|Wanted(entries, stat)|, UnresolvedOf(entries, stat))
    ensures r.PolicyApplied? ==>
              && t.Now() == Target(entries, stat, found, config) && cached == Some(entries)
              && t.enforcing == config.enforceCamera && t.enforcingAudio == config.enforceAudio
    ensures r.Error? ==>
              && LeftAfter(r.why, old(t.Now()), Target(entries, stat, found, config), t.Now()) && cached == None
              && t.enforcing == old(t.enforcing) && t.enforcingAudio == old(t.enforcingAudio)
  {
    hide Wanted, UnresolvedOf, Passing, PartlyWritten, OneOperation, Between;
    ghost var o, n := t.Now(), Target(entries, stat, found, config);
    r := ReplacePolicy(t, entries, stat, n);
    if r.Error? {
      return r, None;
    }
    var ok := PushCaptureMinors(t, found, old(t.trail), o, n);
    if !ok {
      return Error(MinorsNotWritten), None;
    }
    ghost var trail, was := t.trail, t.Now();
    t.WriteConfig(config);
    ConfigIsBetween(o, n);
    PassingGrows(trail, old(t.trail), o, n, was, t.Now());
    t.enforcing, t.enforcingAudio := config.enforceCamera, config.enforceAudio;
    cached := Some(entries);
  }

  /** Both policies grant the executable what opening this kind of device takes. */
  predicate GrantedInBoth(o: Enforcement, n: Enforcement, exe: ExeKey, major: nat) {
    var bit := if major == V4L2_MAJOR then PERM_CAMERA else PERM_AUDIO;
    o.Granted(exe, bit) && n.Granted(exe, bit)
  }

  /** Neither does, and both enforce it; a sound device counts as a capture device in both. */
  predicate EnforcedInBoth(o: Enforcement, n: Enforcement, exe: ExeKey, major: nat, minor: nat) {
    && o.config.Some? && n.config.Some?
    && if major == V4L2_MAJOR
       then && o.config.value.enforceCamera && n.config.value.enforceCamera
            && !o.Granted(exe, PERM_CAMERA) && !n.Granted(exe, PERM_CAMERA)
       else && o.config.value.enforceAudio && n.config.value.enforceAudio && minor in o.minors && minor in n.minors
            && !o.Granted(exe, PERM_AUDIO) && !n.Granted(exe, PERM_AUDIO)
  }

  /**
   An open of a camera or a sound device that runs at any point of a push: by an executable granted that kind of device
   before and after it, it is not denied; by one granted in neither, with enforcement on before and after, it is.
   */
  lemma OpensDuringAPush(trail: seq<Enforcement>, before: seq<Enforcement>, o: Enforcement, n: Enforcement,
                         now: Enforcement, i: nat, handles: Handles, bursts: map<BurstKey, Burst>, call: Open)
    requires Passing(trail, before, o, n, now) && |before| <= i < |trail|
    requires call.exe.Some? && call.earlier == 0 && (call.major == V4L2_MAJOR || call.major == ALSA_MAJOR)
    ensures var s, exe := State(trail[i], handles, bursts), call.exe.value;
            && (GrantedInBoth(o, n, exe, call.major) ==> !DeniedOpen(s, call))
            && (EnforcedInBoth(o, n, exe, call.major, call.minor) ==> DeniedOpen(s, call))
  {
    hide Has, PolicyBetween, OneOperation;
    GrantedInBothIsNeverDenied(o, n, trail[i], call.exe.value, call.minor);
    if EnforcedInBoth(o, n, call.exe.value, call.major, call.minor) {
      GrantedInNeitherIsDenied(o, n, trail[i], call.exe.value, call.minor);
    }
  }
}
