/** From the rules to the kernel's verdict: what a push of the intended policy makes the open hook answer. */
module FullPush {
  import opened Text
  import opened Common
  import opened Rules
  import opened KernelPolicy
  import opened Kernel
  import opened PolicyPush

  /** The path is absolute and the file behind it is this executable. */
  predicate Leads(path: string, stat: string -> Option<ExeKey>, exe: ExeKey) {
    path != "" && path[0] == '/' && stat(path) == Some(exe)
  }

  /** Some rule for the executable allows the camera, or allows it while in use and is in use. */
  predicate CameraFor(rules: seq<Rule>, live: string -> bool, stat: string -> Option<ExeKey>, exe: ExeKey) {
    exists r | r in rules ::
      && (r.camera == Some(Allow) || (r.camera == Some(WhileInUse) && live(r.appName)))
      && r.exePath.Some? && Leads(r.exePath.value, stat, exe)
  }

  /** Some rule for the executable allows the microphone. */
  predicate AudioFor(rules: seq<Rule>, stat: string -> Option<ExeKey>, exe: ExeKey) {
    exists r | r in rules :: r.microphone == Some(Allow) && r.exePath.Some? && Leads(r.exePath.value, stat, exe)
  }

  /** Some rule allows the microphone to a binary with the name of an audio server. */
  predicate ServerAllowed(rules: seq<Rule>) {
    exists r | r in rules ::
      && r.microphone == Some(Allow) && r.exePath.Some?
      && (|| EndsIn(r.exePath.value, "pipewire") || EndsIn(r.exePath.value, "wireplumber")
          || EndsIn(r.exePath.value, "pipewire-pulse"))
  }

  lemma LeadsIs(path: string, stat: string -> Option<ExeKey>, exe: ExeKey)
    ensures Leads(path, stat, exe) <==> KeyOf(path, stat) == Some(exe)
  {
  }

  lemma PathsOfRules(rules: seq<Rule>, live: string -> bool, stat: string -> Option<ExeKey>, exe: ExeKey)
    ensures CameraFor(rules, live, stat, exe) <==> exists p :: CameraPath(rules, live, p) && KeyOf(p, stat) == Some(exe)
    ensures AudioFor(rules, stat, exe) <==> exists p :: AudioPath(rules, p) && KeyOf(p, stat) == Some(exe)
    ensures ServerAllowed(rules) <==> exists p :: AudioPath(rules, p) && IsAudioServer(p)
  {
    hide KeyOf, IsAudioServer, Leads, EndsIn;
    forall p {:trigger KeyOf(p, stat)} ensures Leads(p, stat, exe) <==> KeyOf(p, stat) == Some(exe) {
      LeadsIs(p, stat, exe);
    }
    forall p ensures IsAudioServer(p)
                <==> EndsIn(p, "pipewire") || EndsIn(p, "wireplumber") || EndsIn(p, "pipewire-pulse") {
      AudioServerIs(p);
    }
    forall r | r in rules && r.exePath.Some?
      ensures CameraGranted(r, live) ==> CameraPath(rules, live, r.exePath.value)
      ensures AudioGranted(r) ==> AudioPath(rules, r.exePath.value)
    {
    }
  }

  /** What the entries say, executable by executable. */
  lemma EntriesMean(rules: seq<Rule>, live: string -> bool, entries: seq<PolicyEntry>, stat: string -> Option<ExeKey>,
                    exe: ExeKey)
    requires forall e | e in entries :: Intended(rules, live, e)
    requires forall p | CameraPath(rules, live, p) || AudioPath(rules, p) :: exists e | e in entries :: e.exePath == p
    ensures Asks(entries, stat, exe, PERM_CAMERA) <==> CameraFor(rules, live, stat, exe)
    ensures Asks(entries, stat, exe, PERM_AUDIO) <==> AudioFor(rules, stat, exe)
  {
    hide Has, KeyOf, CameraFor, AudioFor, CameraPath, AudioPath;
    PathsOfRules(rules, live, stat, exe);
    if p :| CameraPath(rules, live, p) && KeyOf(p, stat) == Some(exe) {
      var e :| e in entries && e.exePath == p;
      assert Intended(rules, live, e);
    }
    if p :| AudioPath(rules, p) && KeyOf(p, stat) == Some(exe) {
      var e :| e in entries && e.exePath == p;
      assert Intended(rules, live, e);
    }
  }

  /**
   Once a push of the intended policy is applied, the kernel denies a camera exactly when the camera is guarded and no
   rule grants it to that executable, and a capture device exactly when the microphone is guarded, an audio server is
   allowed, and no rule allows it to that executable. So the server that made the backstop enforceable, if its path
   resolves, is never denied by it.
   */
  method PushIntended(t: Tables, rules: seq<Rule>, live: string -> bool, guardCamera: bool, guardMicrophone: bool,
                      stat: string -> Option<ExeKey>, found: set<nat>, coalesceNs: nat)
    returns (r: Reply)
    requires |t.policy| <= POLICY_MAX && |t.minors| <= MINORS_MAX
    modifies t
    ensures r.PolicyApplied? ==> forall exe, minor ::
              t.Now().Denies(exe, V4L2_MAJOR, minor) <==> guardCamera && !CameraFor(rules, live, stat, exe)
    ensures r.PolicyApplied? ==> forall exe, minor ::
              t.Now().Denies(exe, ALSA_MAJOR, minor)
              <==> guardMicrophone && ServerAllowed(rules) && minor in found && !AudioFor(rules, stat, exe)
  {
    hide Has, KeyOf, CameraFor, AudioFor, CameraPath, AudioPath, Wanted, Asks, IsAudioServer, Passing, ServerAllowed;
    hide Between;
    var entries, enforceCamera, enforceAudio := IntendedPolicy(rules, live, guardCamera, guardMicrophone);
    PathsOfRules(rules, live, stat, ExeKey(0, 0));
    assert enforceAudio <==> guardMicrophone && ServerAllowed(rules) by {
      ServerEntry(rules, live, entries);
    }
    var cached;
    r, cached := SetPolicy(t, entries, Config(enforceCamera, enforceAudio, coalesceNs), stat, found);
    forall exe | r.PolicyApplied?
      ensures t.Now().Granted(exe, PERM_CAMERA) <==> CameraFor(rules, live, stat, exe)
      ensures t.Now().Granted(exe, PERM_AUDIO) <==> AudioFor(rules, stat, exe)
    {
      WantedByKey(entries, stat, exe, PERM_CAMERA);
      WantedByKey(entries, stat, exe, PERM_AUDIO);
      EntriesMean(rules, live, entries, stat, exe);
    }
  }

  /**
   And so the open hook answers. After an applied push, which leaves its maps to the hook, an open that nobody denied
   before is refused if and only if there is an executable and: it is a camera, the camera is guarded and no rule grants
   it; or it is a current capture device, the microphone is guarded, an audio server is allowed and no rule allows it.
   */
  method PushThenOpen(t: Tables, h: Hooks, rules: seq<Rule>, live: string -> bool, guardCamera: bool,
                      guardMicrophone: bool, stat: string -> Option<ExeKey>, found: set<nat>, coalesceNs: nat, o: Open,
                      ringHasRoom: bool)
    returns (r: Reply, ret: int)
    requires |t.policy| <= POLICY_MAX && |t.minors| <= MINORS_MAX && o.earlier == 0
    modifies t, h
    ensures r.PolicyApplied? ==>
              ret == if && o.exe.Some?
                        && (|| (o.major == V4L2_MAJOR && guardCamera && !CameraFor(rules, live, stat, o.exe.value))
                            || (&& o.major == ALSA_MAJOR && guardMicrophone && ServerAllowed(rules) && o.minor in found
                                && !AudioFor(rules, stat, o.exe.value)))
                     then -EPERM else 0
  {
    hide Has, CameraFor, AudioFor, ServerAllowed, AfterOpen, Reports;
    r := PushIntended(t, rules, live, guardCamera, guardMicrophone, stat, found, coalesceNs);
    h.policy, h.captureMinors, h.config := t.policy, t.minors, t.config;
    assert h.Abstract().rules == t.Now();
    ret := h.FileOpen(o, ringHasRoom);
  }

  lemma ServerEntry(rules: seq<Rule>, live: string -> bool, entries: seq<PolicyEntry>)
    requires forall e | e in entries :: Intended(rules, live, e)
    requires forall p | CameraPath(rules, live, p) || AudioPath(rules, p) :: exists e | e in entries :: e.exePath == p
    ensures (exists e | e in entries :: IsAudioServer(e.exePath) && Has(e.perms, PERM_AUDIO)) <==> ServerAllowed(rules)
  {
    hide Has, IsAudioServer, CameraPath, AudioPath, ServerAllowed;
    PathsOfRules(rules, live, _ => None, ExeKey(0, 0));
    if e :| e in entries && IsAudioServer(e.exePath) && Has(e.perms, PERM_AUDIO) {
      assert Intended(rules, live, e);
    }
    if p :| AudioPath(rules, p) && IsAudioServer(p) {
      var e :| e in entries && e.exePath == p;
      assert Intended(rules, live, e);
    }
  }

  // ---------------------------------------------------------------------------
  // When a push may be skipped
  // ---------------------------------------------------------------------------

  /** The file behind a path, as inode and device. */
  type FileId = (nat, nat)

  /** What was pushed last: each path with its bits and the file behind it, and the two flags. */
  datatype Fingerprint = Fingerprint(
    files: set<(string, Perms, Option<FileId>)>, enforceCamera: bool, enforceAudio: bool)

  function Take(entries: seq<PolicyEntry>, enforceCamera: bool, enforceAudio: bool,
                file: string -> Option<FileId>): Fingerprint {
    Fingerprint(Files(entries, file), enforceCamera, enforceAudio)
  }

  function Files(entries: seq<PolicyEntry>, file: string -> Option<FileId>): set<(string, Perms, Option<FileId>)> {
    set e | e in entries :: (e.exePath, e.perms, file(e.exePath))
  }

  /** The key of a path: its inode, and its device in the kernel's encoding. */
  function StatBy(file: string -> Option<FileId>, kernelDev: nat -> nat): string -> Option<ExeKey> {
    p => match file(p) case Some(f) => Some(ExeKey(f.0, kernelDev(f.1))) case None => None
  }

  /** Every entry of one list has a twin in the other. */
  ghost predicate Twinned(a: seq<PolicyEntry>, b: seq<PolicyEntry>, fileA: string -> Option<FileId>,
                          fileB: string -> Option<FileId>)
  {
    forall e | e in a :: e in b && fileB(e.exePath) == fileA(e.exePath)
  }

  lemma SameFilesAreTwins(a: seq<PolicyEntry>, b: seq<PolicyEntry>, fileA: string -> Option<FileId>,
                          fileB: string -> Option<FileId>)
    requires Files(a, fileA) <= Files(b, fileB)
    ensures Twinned(a, b, fileA, fileB)
  {
    forall e | e in a ensures e in b && fileB(e.exePath) == fileA(e.exePath) {
      var triple := (e.exePath, e.perms, fileA(e.exePath));
      assert triple in Files(a, fileA);
      var d :| d in b && (d.exePath, d.perms, fileB(d.exePath)) == triple;
      assert d == e;
    }
  }

  lemma TwinsAnswer(a: seq<PolicyEntry>, b: seq<PolicyEntry>, fileA: string -> Option<FileId>,
                    fileB: string -> Option<FileId>,
                    kernelDev: nat -> nat, exe: ExeKey, mask: Perms)
    requires Twinned(a, b, fileA, fileB)
    ensures Asks(a, StatBy(fileA, kernelDev), exe, mask) ==> Asks(b, StatBy(fileB, kernelDev), exe, mask)
    ensures (exists e | e in a :: KeyOf(e.exePath, StatBy(fileA, kernelDev)) == Some(exe))
        ==> (exists e | e in b :: KeyOf(e.exePath, StatBy(fileB, kernelDev)) == Some(exe))
  {
    hide Has;
  }

  lemma TwinsWant(a: seq<PolicyEntry>, b: seq<PolicyEntry>, fileA: string -> Option<FileId>,
                  fileB: string -> Option<FileId>,
                  kernelDev: nat -> nat, k: ExeKey, mask: Perms)
    requires Twinned(a, b, fileA, fileB) && Twinned(b, a, fileB, fileA)
    ensures var m, n := Wanted(a, StatBy(fileA, kernelDev)), Wanted(b, StatBy(fileB, kernelDev));
            (k in m <==> k in n) && (k in m ==> (Has(m[k], mask) <==> Has(n[k], mask)))
  {
    hide Wanted, Asks, KeyOf, Has, Twinned, StatBy;
    WantedByKey(a, StatBy(fileA, kernelDev), k, mask);
    WantedByKey(b, StatBy(fileB, kernelDev), k, mask);
    TwinsAnswer(a, b, fileA, fileB, kernelDev, k, mask);
    TwinsAnswer(b, a, fileB, fileA, kernelDev, k, mask);
  }

  /**
   An unchanged fingerprint means an unchanged policy: the two entry lists, in whatever order and on whatever day,
   install the same map and the same flags. A replaced binary or a moved grant changes the fingerprint.
   */
  lemma SameFingerprintSamePolicy(a: seq<PolicyEntry>, b: seq<PolicyEntry>, fileA: string -> Option<FileId>,
                                  fileB: string -> Option<FileId>, kernelDev: nat -> nat,
                                  camA: bool, camB: bool, audA: bool, audB: bool)
    requires Take(a, camA, audA, fileA) == Take(b, camB, audB, fileB)
    ensures Wanted(a, StatBy(fileA, kernelDev)) == Wanted(b, StatBy(fileB, kernelDev)) && camA == camB && audA == audB
  {
    hide Wanted, Has, Files, StatBy, Twinned;
    SameFilesAreTwins(a, b, fileA, fileB);
    SameFilesAreTwins(b, a, fileB, fileA);
    var m, n := Wanted(a, StatBy(fileA, kernelDev)), Wanted(b, StatBy(fileB, kernelDev));
    forall k ensures (k in m <==> k in n) && (k in m ==> m[k] == n[k]) {
      TwinsWant(a, b, fileA, fileB, kernelDev, k, 0);
      if k in m {
        forall mask: Perms ensures Has(m[k], mask) <==> Has(n[k], mask) {
          TwinsWant(a, b, fileA, fileB, kernelDev, k, mask);
        }
        SameBits(m[k], n[k]);
      }
    }
  }
}
