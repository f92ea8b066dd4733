/**
 From the rules to the policy pushed to the kernel helper: the two allowlists, the audio interlock and the entries.
 */
module KernelPolicy {
  import opened Text
  import opened Common
  import opened Rules

  const AUDIO_SERVER_NAMES: seq<string> := ["pipewire", "wireplumber", "pipewire-pulse"]

  /** The camera at the kernel: allowed outright, or in use right now. */
  predicate CameraGranted(r: Rule, live: string -> bool) {
    r.camera == Some(Allow) || (r.camera == Some(WhileInUse) && live(r.appName))
  }

  /** Capture devices at the kernel: only an outright allow. */
  predicate AudioGranted(r: Rule) {
    r.microphone == Some(Allow)
  }

  /** The binaries of the rules that grant, one per rule, in rule order. */
  function Paths(rules: seq<Rule>, granted: Rule -> bool): seq<string> {
    if rules == [] then []
    else
      var front, r := Paths(rules[..|rules| - 1], granted), rules[|rules| - 1];
      if granted(r) && r.exePath.Some? then front + [r.exePath.value] else front
  }

  /** Each path once, at its first place. */
  function Dedup(v: seq<string>): seq<string> {
    if v == [] then []
    else
      var front, p := Dedup(v[..|v| - 1]), v[|v| - 1];
      if p in front then front else front + [p]
  }

  method DedupByPath(v: seq<string>) returns (kept: seq<string>)
    ensures kept == Dedup(v)
  {
    var seen: set<string> := {};
    kept := [];
    assert v[..0] == [];
    for i := 0 to |v|
      invariant kept == Dedup(v[..i])
      invariant forall p :: p in seen <==> p in kept
    {
      assert v[..i + 1][..i] == v[..i];
      if v[i] !in seen {
        seen := seen + {v[i]};
        kept := kept + [v[i]];
      }
    }
    assert v[..|v|] == v;
  }

  function Allowlist(rules: seq<Rule>, granted: Rule -> bool): seq<string> {
    Dedup(Paths(rules, granted))
  }

  function CameraAllowlist(rules: seq<Rule>, live: string -> bool): seq<string> {
    Allowlist(rules, r => CameraGranted(r, live))
  }

  /** The camera list with no session live, as a merge previews it. */
  function SteadyCameraAllowlist(rules: seq<Rule>): seq<string> {
    Allowlist(rules, (r: Rule) => r.camera == Some(Allow))
  }

  function AudioAllowlist(rules: seq<Rule>): seq<string> {
    Allowlist(rules, r => AudioGranted(r))
  }

  /** Some rule naming this binary grants. */
  predicate Grants(rules: seq<Rule>, granted: Rule -> bool, path: string) {
    exists r | r in rules :: granted(r) && r.exePath == Some(path)
  }

  predicate CameraPath(rules: seq<Rule>, live: string -> bool, path: string) {
    Grants(rules, r => CameraGranted(r, live), path)
  }

  predicate AudioPath(rules: seq<Rule>, path: string) {
    Grants(rules, r => AudioGranted(r), path)
  }

  lemma {:induction false} PathsMembers(rules: seq<Rule>, granted: Rule -> bool, path: string)
    ensures path in Paths(rules, granted) <==> Grants(rules, granted, path)
  {
    if rules != [] {
      var front, r := rules[..|rules| - 1], rules[|rules| - 1];
      assert rules == front + [r];
      PathsMembers(front, granted, path);
      assert forall q | q in rules :: q in front || q == r;
    }
  }

  lemma {:induction false} DedupMembers(v: seq<string>)
    ensures forall p :: p in Dedup(v) <==> p in v
    ensures forall i, j | 0 <= i < j < |Dedup(v)| :: Dedup(v)[i] != Dedup(v)[j]
  {
    if v != [] {
      DedupMembers(v[..|v| - 1]);
      assert v == v[..|v| - 1] + [v[|v| - 1]];
    }
  }

  /** An allowlist names a binary if and only if some rule for that binary grants, and names it once. */
  lemma AllowlistMeans(rules: seq<Rule>, granted: Rule -> bool)
    ensures forall path :: path in Allowlist(rules, granted) <==> Grants(rules, granted, path)
    ensures forall i, j | 0 <= i < j < |Allowlist(rules, granted)| ::
              Allowlist(rules, granted)[i] != Allowlist(rules, granted)[j]
  {
    hide Grants;
    DedupMembers(Paths(rules, granted));
    forall path ensures path in Allowlist(rules, granted) <==> Grants(rules, granted, path) {
      PathsMembers(rules, granted, path);
    }
  }

  // ---------------------------------------------------------------------------
  // The audio interlock
  // ---------------------------------------------------------------------------

  /** The text after the last slash among the first `end` characters of the path. */
  function LastComponent(path: string, end: nat): (name: string)
    requires end <= |path|
    ensures |name| <= |path| && path[|path| - |name|..] == name
  {
    if end == 0 || path[end - 1] == '/' then path[end..] else LastComponent(path, end - 1)
  }

  function ShortName(exePath: string): string {
    var name := LastComponent(exePath, |exePath|);
    if name == "" then exePath else name
  }

  predicate IsAudioServer(exePath: string) {
    ShortName(exePath) in AUDIO_SERVER_NAMES
  }

  /** The path is this name, or ends in it after a slash. */
  predicate EndsIn(path: string, name: string) {
    path == name || (|path| > |name| && path[|path| - |name| - 1] == '/' && path[|path| - |name|..] == name)
  }

  lemma LastComponentIs(path: string, end: nat, name: string)
    requires end <= |path| && '/' !in name && '/' !in path[end..]
    ensures LastComponent(path, end) == name <==> EndsIn(path, name)
  {
    if end > 0 && path[end - 1] != '/' {
      assert path[end - 1..] == [path[end - 1]] + path[end..];
      LastComponentIs(path, end - 1, name);
    } else if EndsIn(path, name) {
      assert forall i | 0 <= i < |name| :: path[|path| - |name| + i] == name[i] != '/';
    }
  }

  /** The short name is what follows the last slash; a path that ends in one keeps all of itself. */
  lemma ShortNameIs(directory: string, name: string)
    requires '/' !in name
    ensures ShortName(directory + "/" + name) == if name == "" then directory + "/" else name
  {
    hide LastComponent;
    var path := directory + "/" + name;
    assert path[|path|..] == "";
    LastComponentIs(path, |path|, name);
    assert path[|path| - |name|..] == name && path[|path| - |name| - 1] == '/';
  }

  /** A recognised server is a binary of one of the three names, in whatever directory. */
  lemma AudioServerIs(path: string)
    ensures IsAudioServer(path)
       <==> EndsIn(path, "pipewire") || EndsIn(path, "wireplumber") || EndsIn(path, "pipewire-pulse")
  {
    hide LastComponent;
    LastComponentIs(path, |path|, "pipewire");
    LastComponentIs(path, |path|, "wireplumber");
    LastComponentIs(path, |path|, "pipewire-pulse");
    LastComponentIs(path, |path|, "");
  }

  datatype Blocker = NobodyAllowed | NoAudioServer

  /** Nothing, if a recognised audio server is on the audio list; else what is missing from it. */
  method AudioBackstopBlocker(rules: seq<Rule>) returns (why: Option<Blocker>)
    ensures why.None? <==> exists path | path in AudioAllowlist(rules) :: IsAudioServer(path)
    ensures why == Some(NobodyAllowed) <==> AudioAllowlist(rules) == []
  {
    var list := AudioAllowlist(rules);
    if list == [] {
      return Some(NobodyAllowed);
    }
    var i := 0;
    while i < |list|
      invariant 0 <= i <= |list|
      invariant forall j | 0 <= j < i :: !IsAudioServer(list[j])
    {
      if IsAudioServer(list[i]) {
        return None;
      }
      i := i + 1;
    }
    return Some(NoAudioServer);
  }

  // ---------------------------------------------------------------------------
  // The intended policy
  // ---------------------------------------------------------------------------

  /** The bits of a path so far, zero when it has no entry. */
  function BitsAt(byPath: map<string, Perms>, path: string): Perms {
    if path in byPath then byPath[path] else 0
  }

  /** The bit OR-ed into the entry of every listed path, and no other. */
  ghost predicate Ored(byPath: map<string, Perms>, paths: seq<string>, bit: Perms, r: map<string, Perms>) {
    && (forall p :: p in r <==> p in byPath || p in paths)
    && (forall p | p in r :: r[p] == if p in paths then Or(BitsAt(byPath, p), bit) else byPath[p])
  }

  lemma OredGrows(byPath: map<string, Perms>, paths: seq<string>, bit: Perms, r: map<string, Perms>, p: string)
    requires Ored(byPath, paths, bit, r)
    ensures Ored(byPath, paths + [p], bit, r[p := Or(BitsAt(r, p), bit)])
  {
    hide Or;
    OrTwice(BitsAt(byPath, p), bit);
    assert forall q :: q in paths + [p] <==> q in paths || q == p;
  }

  method OrInto(byPath: map<string, Perms>, paths: seq<string>, bit: Perms) returns (r: map<string, Perms>)
    ensures Ored(byPath, paths, bit, r)
  {
    hide Or;
    r := byPath;
    for i := 0 to |paths|
      invariant Ored(byPath, paths[..i], bit, r)
    {
      OredGrows(byPath, paths[..i], bit, r, paths[i]);
      assert paths[..i + 1] == paths[..i] + [paths[i]];
      r := r[paths[i] := Or(BitsAt(r, paths[i]), bit)];
    }
    assert paths[..|paths|] == paths;
  }

  lemma OrTwice(x: Perms, bit: Perms)
    ensures Or(Or(x, bit), bit) == Or(x, bit)
  {
  }

  ghost predicate Lists(entries: seq<PolicyEntry>, byPath: map<string, Perms>) {
    && (forall i, j | 0 <= i < j < |entries| :: entries[i].exePath != entries[j].exePath)
    && (forall e | e in entries :: e.exePath in byPath && byPath[e.exePath] == e.perms)
    && (forall p | p in byPath :: PolicyEntry(p, byPath[p]) in entries)
  }

  method Collect(byPath: map<string, Perms>) returns (entries: seq<PolicyEntry>)
    ensures Lists(entries, byPath)
  {
    entries := [];
    var left := byPath.Keys;
    while left != {}
      invariant left <= byPath.Keys
      invariant forall e | e in entries :: e.exePath in byPath.Keys - left && byPath[e.exePath] == e.perms
      invariant forall p | p in byPath.Keys - left :: PolicyEntry(p, byPath[p]) in entries
      invariant forall i, j | 0 <= i < j < |entries| :: entries[i].exePath != entries[j].exePath
      decreases |left|
    {
      var p :| p in left;
      left := left - {p};
      entries := entries + [PolicyEntry(p, byPath[p])];
    }
  }

  /** What one entry says about a path: which bits it may carry, and when. */
  ghost predicate Intended(rules: seq<Rule>, live: string -> bool, e: PolicyEntry) {
    && (Has(e.perms, PERM_CAMERA) <==> CameraPath(rules, live, e.exePath))
    && (Has(e.perms, PERM_AUDIO) <==> AudioPath(rules, e.exePath))
    && e.perms != 0 && e.perms & !(PERM_CAMERA | PERM_AUDIO) == 0
  }

  /**
   The policy the configuration intends. One entry per binary; its camera bit says some rule for that binary allows
   the camera or is in use, its audio bit says some rule allows the microphone. The backstop is asked for only when a
   recognised audio server holds the audio bit.
   */
  method IntendedPolicy(rules: seq<Rule>, live: string -> bool, guardCamera: bool, guardMicrophone: bool)
    returns (entries: seq<PolicyEntry>, enforceCamera: bool, enforceAudio: bool)
    ensures forall i, j | 0 <= i < j < |entries| :: entries[i].exePath != entries[j].exePath
    ensures forall e | e in entries :: Intended(rules, live, e)
    ensures forall path | CameraPath(rules, live, path) || AudioPath(rules, path) ::
              exists e | e in entries :: e.exePath == path
    ensures enforceCamera == guardCamera
    ensures enforceAudio <==> guardMicrophone
                              && exists e | e in entries :: IsAudioServer(e.exePath) && Has(e.perms, PERM_AUDIO)
  {
    hide Allowlist, CameraAllowlist, AudioAllowlist, CameraPath, AudioPath, IsAudioServer, Has;
    var camera, audio := CameraAllowlist(rules, live), AudioAllowlist(rules);
    ListsMean(rules, live);
    var byPath := OrInto(map[], camera, PERM_CAMERA);
    byPath := OrInto(byPath, audio, PERM_AUDIO);
    entries := Collect(byPath);
    enforceCamera := guardCamera;
    var why := AudioBackstopBlocker(rules);
    enforceAudio := why.None? && guardMicrophone;
    assert forall path | path in camera || path in audio :: PolicyEntry(path, byPath[path]) in entries;
    forall e | e in entries ensures Intended(rules, live, e) {
      BitsOfTwo(e.exePath in camera, e.exePath in audio);
    }
  }

  lemma ListsMean(rules: seq<Rule>, live: string -> bool)
    ensures forall path :: path in CameraAllowlist(rules, live) <==> CameraPath(rules, live, path)
    ensures forall path :: path in AudioAllowlist(rules) <==> AudioPath(rules, path)
  {
    AllowlistMeans(rules, r => CameraGranted(r, live));
    AllowlistMeans(rules, r => AudioGranted(r));
  }

  lemma BitsOfTwo(camera: bool, audio: bool)
    requires camera || audio
    ensures var bits := Or(if camera then Or(0, PERM_CAMERA) else 0, if audio then PERM_AUDIO else 0);
            && (Has(bits, PERM_CAMERA) <==> camera) && (Has(bits, PERM_AUDIO) <==> audio)
            && bits != 0 && bits & !(PERM_CAMERA | PERM_AUDIO) == 0
  {
  }
}
