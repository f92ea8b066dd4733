/** Which device node a kernel device number belongs to, and what the helper takes the node for. */
module DeviceIndex {
  import opened Text
  import opened Accounting
  import K = Kernel

  /** A directory entry that could be read: its name and its device number. */
  datatype DeviceNode = DeviceNode(name: string, major: nat, minor: nat) {
    function Number(): (nat, nat) {
      (major, minor)
    }
  }

  /** `/dev` and `/dev/snd`, in reading order. */
  datatype Directories = Directories(dev: seq<DeviceNode>, snd: seq<DeviceNode>)

  datatype DeviceRole = VideoCapture | AudioCapture | AudioPlayback | AudioControl | Other

  function Classify(major: nat, name: string): DeviceRole {
    if major == K.V4L2_MAJOR then VideoCapture
    else if "pcm" <= name then
      if name[|name| - 1] == 'c' then AudioCapture
      else if name[|name| - 1] == 'p' then AudioPlayback
      else Other
    else if "control" <= name then AudioControl
    else Other
  }

  /** In `/dev` itself only names that start with `video` are looked at; either way only the two majors count. */
  predicate Taken(n: DeviceNode, takeAll: bool) {
    (takeAll || "video" <= n.name) && (n.major == K.V4L2_MAJOR || n.major == K.ALSA_MAJOR)
  }

  type Index = map<(nat, nat), DeviceRole>

  /** One directory into the index; a later entry replaces an earlier one with its number. */
  function Scanned(index: Index, entries: seq<DeviceNode>, takeAll: bool): Index {
    if entries == [] then index
    else
      var front, n := Scanned(index, entries[..|entries| - 1], takeAll), entries[|entries| - 1];
      if Taken(n, takeAll) then front[n.Number() := Classify(n.major, n.name)] else front
  }

  function Indexed(d: Directories): Index {
    Scanned(Scanned(map[], d.dev, false), d.snd, true)
  }

  /** The index a look-up leaves: a number that is not known makes it read the directories again. */
  function LookedUp(index: Index, number: (nat, nat), d: Directories): Index {
    if number in index then index else Indexed(d)
  }

  /** The label an event gets: a number without a node is reported as something else. */
  function LabelOf(index: Index, number: (nat, nat)): Role {
    if number !in index then Elsewhere
    else
      match index[number]
      case VideoCapture => CAMERA
      case AudioCapture => MIC
      case _ => Elsewhere
  }

  function CaptureMinorsOf(index: Index): set<nat> {
    set number | number in index && number.0 == K.ALSA_MAJOR && index[number] == AudioCapture :: number.1
  }

  class Resolver {
    var index: Index

    constructor (d: Directories)
      ensures index == Indexed(d)
    {
      index := map[];
      new;
      Rescan(d);
    }

    method ScanDir(entries: seq<DeviceNode>, takeAll: bool)
      modifies `index
      ensures index == Scanned(old(index), entries, takeAll)
    {
      assert entries[..0] == [];
      for i := 0 to |entries|
        invariant index == Scanned(old(index), entries[..i], takeAll)
      {
        assert entries[..i + 1][..i] == entries[..i];
        var n := entries[i];
        if !takeAll && !("video" <= n.name) {
          continue;
        }
        if n.major != K.V4L2_MAJOR && n.major != K.ALSA_MAJOR {
          continue;
        }
        index := index[(n.major, n.minor) := Classify(n.major, n.name)];
      }
      assert entries[..|entries|] == entries;
    }

    method Rescan(d: Directories)
      modifies `index
      ensures index == Indexed(d)
    {
      index := map[];
      ScanDir(d.dev, false);
      ScanDir(d.snd, true);
    }

    method Lookup(number: (nat, nat), d: Directories) returns (role: Option<DeviceRole>)
      modifies `index
      ensures index == LookedUp(old(index), number, d)
      ensures role == if number in index then Some(index[number]) else None
    {
      if number in index {
        return Some(index[number]);
      }
      Rescan(d);
      role := if number in index then Some(index[number]) else None;
    }
  }

  // ---------------------------------------------------------------------------
  // What is found
  // ---------------------------------------------------------------------------

  predicate Bears(n: DeviceNode, takeAll: bool, number: (nat, nat)) {
    Taken(n, takeAll) && n.Number() == number
  }

  /** The number is in the index after a scan if it was before, or if an entry taken bears it. */
  lemma {:induction false} ScannedHolds(index: Index, entries: seq<DeviceNode>, takeAll: bool, number: (nat, nat))
    ensures number in Scanned(index, entries, takeAll)
       <==> number in index || exists n | n in entries :: Bears(n, takeAll, number)
  {
    if entries != [] {
      hide Taken, Classify;
      var front, last := entries[..|entries| - 1], entries[|entries| - 1];
      ScannedHolds(index, front, takeAll, number);
      assert entries == front + [last];
      if n :| n in front && Bears(n, takeAll, number) {
        assert n in entries;
      }
      assert last in entries;
    }
  }

  /** A camera's number is a V4L2 one, and the other way round; all other numbers are of sound devices. */
  predicate RolesFit(index: Index) {
    forall number | number in index ::
      && (index[number] == VideoCapture <==> number.0 == K.V4L2_MAJOR)
      && (number.0 == K.V4L2_MAJOR || number.0 == K.ALSA_MAJOR)
  }

  lemma {:induction false} ScannedFits(index: Index, entries: seq<DeviceNode>, takeAll: bool)
    requires RolesFit(index)
    ensures RolesFit(Scanned(index, entries, takeAll))
  {
    if entries != [] {
      ScannedFits(index, entries[..|entries| - 1], takeAll);
    }
  }

  lemma IndexedFits(d: Directories)
    ensures RolesFit(Indexed(d))
  {
    hide Scanned;
    ScannedFits(map[], d.dev, false);
    ScannedFits(Scanned(map[], d.dev, false), d.snd, true);
  }

  lemma LookedUpFits(index: Index, number: (nat, nat), d: Directories)
    requires RolesFit(index)
    ensures RolesFit(LookedUp(index, number, d))
  {
    hide Indexed;
    IndexedFits(d);
  }

  /** A node with this V4L2 minor that a scan takes: one named `video…` in `/dev`, or any in `/dev/snd`. */
  ghost predicate Named(d: Directories, minor: nat) {
    || (exists n | n in d.dev :: n.Number() == (K.V4L2_MAJOR, minor) && "video" <= n.name)
    || (exists n | n in d.snd :: n.Number() == (K.V4L2_MAJOR, minor))
  }

  /**
   An event from a camera is labelled as one if and only if its number was known from the last scan, or a node with a
   name the scan takes bears it now. An event from any other device never is.
   */
  lemma CameraLabelIff(index: Index, number: (nat, nat), d: Directories)
    requires RolesFit(index)
    ensures LabelOf(LookedUp(index, number, d), number) == CAMERA
       <==> number.0 == K.V4L2_MAJOR && (number in index || Named(d, number.1))
  {
    hide Scanned, Classify;
    LookedUpFits(index, number, d);
    ScannedHolds(map[], d.dev, false, number);
    ScannedHolds(Scanned(map[], d.dev, false), d.snd, true, number);
  }

  /** The name starts with one text and ends, after it, with a letter. */
  predicate Framed(name: string, start: string, last: char) {
    |name| > |start| && name[..|start|] == start && name[|name| - 1] == last
  }

  /** What a node is taken for: a camera by its major, a sound device by its name. */
  lemma ClassifyIs(major: nat, name: string)
    requires major == K.V4L2_MAJOR || major == K.ALSA_MAJOR
    ensures Classify(major, name) == VideoCapture <==> major == 81
    ensures Classify(major, name) == AudioCapture <==> major == 116 && Framed(name, "pcm", 'c')
    ensures Classify(major, name) == AudioPlayback <==> major == 116 && Framed(name, "pcm", 'p')
    ensures Classify(major, name) == AudioControl <==> major == 116 && |name| >= 7 && name[..7] == "control"
  {
    if "pcm" <= name {
      assert name[0] == 'p' && name[2] == 'm' && name[..3] == "pcm";
    } else {
      assert |name| > 3 ==> name[..3] != "pcm";
    }
    assert "control" <= name <==> |name| >= 7 && name[..7] == "control";
    assert "control" <= name ==> name[0] == 'c';
  }

  predicate IsMicrophone(n: DeviceNode) {
    n.major == K.ALSA_MAJOR && "pcm" <= n.name && n.name[|n.name| - 1] == 'c'
  }

  /** The last entry with this number is a capture node. */
  ghost predicate EndsInMicrophone(entries: seq<DeviceNode>, minor: nat) {
    exists i | 0 <= i < |entries| ::
      && IsMicrophone(entries[i]) && entries[i].minor == minor
      && forall j | i < j < |entries| :: entries[j].Number() != (K.ALSA_MAJOR, minor)
  }

  lemma EndsInMicrophoneSnoc(front: seq<DeviceNode>, last: DeviceNode, minor: nat)
    ensures EndsInMicrophone(front + [last], minor)
       <==> if last.Number() == (K.ALSA_MAJOR, minor) then IsMicrophone(last) else EndsInMicrophone(front, minor)
  {
    var all, n := front + [last], |front|;
    assert all[n] == last && forall i | 0 <= i < n :: all[i] == front[i];
    if i :| 0 <= i < n && IsMicrophone(front[i]) && front[i].minor == minor
            && forall j | i < j < n :: front[j].Number() != (K.ALSA_MAJOR, minor) {
      assert IsMicrophone(all[i]);
    }
    if i :| 0 <= i < n && IsMicrophone(all[i]) && all[i].minor == minor
            && forall j | i < j <= n :: all[j].Number() != (K.ALSA_MAJOR, minor) {
      assert IsMicrophone(front[i]) && all[n] == last;
    }
  }

  predicate HoldsMicrophone(index: Index, minor: nat) {
    (K.ALSA_MAJOR, minor) in index && index[(K.ALSA_MAJOR, minor)] == AudioCapture
  }

  lemma {:induction false} ScannedMicrophones(index: Index, entries: seq<DeviceNode>, minor: nat)
    requires !HoldsMicrophone(index, minor)
    ensures HoldsMicrophone(Scanned(index, entries, true), minor) <==> EndsInMicrophone(entries, minor)
  {
    if entries != [] {
      hide EndsInMicrophone;
      var front, last := entries[..|entries| - 1], entries[|entries| - 1];
      ScannedMicrophones(index, front, minor);
      EndsInMicrophoneSnoc(front, last, minor);
      assert front + [last] == entries;
    }
  }

  lemma {:induction false} VideoIsNoMicrophone(entries: seq<DeviceNode>, minor: nat)
    ensures !HoldsMicrophone(Scanned(map[], entries, false), minor)
  {
    if entries != [] {
      var n := entries[|entries| - 1];
      assert "video" <= n.name ==> n.name[0] == 'v';
      assert "pcm" <= n.name ==> n.name[0] == 'p';
      VideoIsNoMicrophone(entries[..|entries| - 1], minor);
    }
  }

  /** The minors handed to the kernel are those whose last entry in `/dev/snd` is a capture node. */
  lemma CaptureMinorsAre(d: Directories, minor: nat)
    ensures minor in CaptureMinorsOf(Indexed(d)) <==> EndsInMicrophone(d.snd, minor)
  {
    hide Scanned, EndsInMicrophone;
    VideoIsNoMicrophone(d.dev, minor);
    ScannedMicrophones(Scanned(map[], d.dev, false), d.snd, minor);
    assert minor in CaptureMinorsOf(Indexed(d)) <==> HoldsMicrophone(Indexed(d), minor);
  }

  /**
   An event is labelled a microphone's if and only if its device is a sound device that was known as a capture node, or
   was not known and whose last entry in `/dev/snd` is one now.
   */
  lemma MicrophoneLabelIff(index: Index, number: (nat, nat), d: Directories)
    requires RolesFit(index)
    ensures LabelOf(LookedUp(index, number, d), number) == MIC
       <==> && number.0 == K.ALSA_MAJOR
            && if number in index then index[number] == AudioCapture else EndsInMicrophone(d.snd, number.1)
  {
    hide Indexed, EndsInMicrophone;
    LookedUpFits(index, number, d);
    CaptureMinorsAre(d, number.1);
  }
}
