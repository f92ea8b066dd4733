/** The rule store: what a rule says, which rule answers for a name, and the operations that change the list. */
module Rules {
  import opened Text
  import opened Common
  import opened Names

  /** No opinion about a category falls through to the default action; it is not a deny. */
  datatype Rule = Rule(
    appName: string,
    microphone: Option<Permission>, camera: Option<Permission>, monitor: Option<Permission>,
    exePath: Option<string>)
  {
    function Opinion(c: Category): Option<Permission> {
      match c
      case Microphone => microphone
      case Camera => camera
      case Monitor => monitor
    }

    function WithOpinion(c: Category, p: Option<Permission>): (r: Rule)
      ensures r.Opinion(c) == p && r.appName == appName && r.exePath == exePath
      ensures forall d | d != c :: r.Opinion(d) == Opinion(d)
    {
      match c
      case Microphone => this.(microphone := p)
      case Camera => this.(camera := p)
      case Monitor => this.(monitor := p)
    }
  }

  function EmptyRule(name: string): Rule {
    Rule(name, None, None, None, None)
  }

  function Key(r: Rule): string {
    Normalize(r.appName)
  }

  function Keys(rules: seq<Rule>): (keys: seq<string>)
    ensures |keys| == |rules|
  {
    seq(|rules|, i requires 0 <= i < |rules| => Key(rules[i]))
  }

  /** Position of the first `x` from `i` on, or the length. */
  function FirstFrom(xs: seq<string>, x: string, i: nat): (r: nat)
    requires i <= |xs|
    ensures i <= r <= |xs|
    ensures r < |xs| ==> xs[r] == x
    ensures forall j | i <= j < r :: xs[j] != x
    decreases |xs| - i
  {
    if i == |xs| || xs[i] == x then i else FirstFrom(xs, x, i + 1)
  }

  /** Position of the first rule stored under a key, or the length. */
  function IndexOf(rules: seq<Rule>, key: string): (i: nat)
    ensures i <= |rules|
  {
    FirstFrom(Keys(rules), key, 0)
  }

  function FirstUnder(rules: seq<Rule>, key: string): Option<Rule> {
    var i := IndexOf(rules, key);
    if i < |rules| then Some(rules[i]) else None
  }

  /** The rule that answers for a name. */
  function FindRule(rules: seq<Rule>, name: string): Option<Rule> {
    FirstUnder(rules, Normalize(name))
  }

  function GetPermission(rules: seq<Rule>, default: Permission, name: string, c: Category): Permission {
    match FindRule(rules, name)
    case Some(r) => if r.Opinion(c).Some? then r.Opinion(c).value else default
    case None => default
  }

  /** Normalised keys are unique. */
  predicate Unique(rules: seq<Rule>) {
    forall i, j | 0 <= i < j < |rules| :: Key(rules[i]) != Key(rules[j])
  }

  // ---------------------------------------------------------------------------
  // Setting
  // ---------------------------------------------------------------------------

  predicate Refused(name: string, c: Category, p: Permission) {
    Sanitize(name).None? || (c == Camera && p == WhileInUse)
  }

  function AfterSet(rules: seq<Rule>, key: string, c: Category, p: Permission): seq<Rule> {
    var i := IndexOf(rules, Normalize(key));
    if i < |rules| then rules[i := rules[i].WithOpinion(c, Some(p))]
    else rules + [EmptyRule(key).WithOpinion(c, Some(p))]
  }

  /** An executable attaches to an existing rule if it is absolute and exists; the empty path clears it. */
  function AfterSetExe(rules: seq<Rule>, name: string, path: string, exists_: string -> bool): seq<Rule> {
    var i := IndexOf(rules, Normalize(name));
    if i == |rules| || !(path == "" || (path[0] == '/' && exists_(path))) then rules
    else rules[i := rules[i].(exePath := if path == "" then None else Some(path))]
  }

  function AfterRemove(rules: seq<Rule>, name: string): seq<Rule> {
    if rules == [] then []
    else
      var front, r := AfterRemove(rules[..|rules| - 1], name), rules[|rules| - 1];
      if Key(r) != Normalize(name) then front + [r] else front
  }

  /** What an import writes: each planned rule whose name still has none. */
  function AfterImport(rules: seq<Rule>, planned: seq<Rule>): seq<Rule> {
    if planned == [] then rules
    else
      var front, r := AfterImport(rules, planned[..|planned| - 1]), planned[|planned| - 1];
      if FindRule(front, r.appName).Some? then front else front + [r]
  }

  datatype ExeResult = Written | NoSuchRule | NotAbsolute | Missing

  class Config {
    var rules: seq<Rule>
    var defaultAction: Permission

    constructor (defaultAction: Permission)
      ensures rules == [] && this.defaultAction == defaultAction
    {
      rules := [];
      this.defaultAction := defaultAction;
    }

    /**
     Creates a rule if the name has none. Refuses, writing nothing, a name that can never match and a camera session.
     */
    method SetRule(name: string, c: Category, p: Permission) returns (ok: bool)
      modifies `rules
      ensures ok == !Refused(name, c, p)
      ensures rules == if ok then AfterSet(old(rules), Sanitize(name).value, c, p) else old(rules)
    {
      match Sanitize(name) {
        case None => return false;
        case Some(key) =>
          if c == Camera && p == WhileInUse {
            return false;
          }
          var i := IndexOf(rules, Normalize(key));
          if i < |rules| {
            rules := rules[i := rules[i].WithOpinion(c, Some(p))];
          } else {
            rules := rules + [EmptyRule(key).WithOpinion(c, Some(p))];
          }
          return true;
      }
    }

    /** Writes exactly when the name has a rule and the path is empty or an absolute one that exists. */
    method SetRuleExe(name: string, exePath: string, exists_: string -> bool) returns (r: ExeResult)
      modifies `rules
      ensures r.Written? <==> FindRule(old(rules), name).Some?
                              && (exePath == "" || (exePath[0] == '/' && exists_(exePath)))
      ensures rules == AfterSetExe(old(rules), name, exePath, exists_)
    {
      var i := IndexOf(rules, Normalize(name));
      if i == |rules| {
        return NoSuchRule;
      }
      if exePath == "" {
        rules := rules[i := rules[i].(exePath := None)];
        return Written;
      }
      if exePath[0] != '/' {
        return NotAbsolute;
      }
      if !exists_(exePath) {
        return Missing;
      }
      rules := rules[i := rules[i].(exePath := Some(exePath))];
      return Written;
    }

    method RemoveRule(name: string) returns (removed: bool)
      modifies `rules
      ensures rules == AfterRemove(old(rules), name)
      ensures removed == (|rules| < |old(rules)|)
    {
      var kept: seq<Rule> := [];
      var key := Normalize(name);
      assert rules[..0] == [];
      for i := 0 to |rules|
        invariant rules == old(rules)
        invariant kept == AfterRemove(rules[..i], name)
      {
        assert rules[..i + 1][..i] == rules[..i];
        if Key(rules[i]) != key {
          kept := kept + [rules[i]];
        }
      }
      assert rules[..|rules|] == rules;
      removed := |kept| < |rules|;
      rules := kept;
    }

    method ApplyPreset(planned: seq<Rule>) returns (added: nat)
      modifies `rules
      ensures rules == AfterImport(old(rules), planned)
      ensures added == |rules| - |old(rules)|
    {
      added := 0;
      assert planned[..0] == [];
      for i := 0 to |planned|
        invariant rules == AfterImport(old(rules), planned[..i])
        invariant added == |rules| - |old(rules)|
      {
        assert planned[..i + 1][..i] == planned[..i];
        if FindRule(rules, planned[i].appName).None? {
          rules := rules + [planned[i]];
          added := added + 1;
        }
      }
      assert planned[..|planned|] == planned;
    }
  }

  // ---------------------------------------------------------------------------
  // What each operation means for the answers
  // ---------------------------------------------------------------------------

  lemma IndexMeans(rules: seq<Rule>, key: string)
    ensures IndexOf(rules, key) < |rules| ==> Key(rules[IndexOf(rules, key)]) == key
    ensures forall j | 0 <= j < IndexOf(rules, key) :: Key(rules[j]) != key
  {
    hide Key;
    assert forall j | 0 <= j < |rules| :: Keys(rules)[j] == Key(rules[j]);
  }

  lemma FirstUnique(xs: seq<string>, x: string, i: nat)
    requires i <= |xs| && (i < |xs| ==> xs[i] == x)
    requires forall j | 0 <= j < i :: xs[j] != x
    ensures FirstFrom(xs, x, 0) == i
  {
  }

  /** A rule replaced by one with the same key answers for that key, and no other answer moves. */
  lemma FirstUnderUpdate(rules: seq<Rule>, i: nat, r: Rule, key: string)
    requires i < |rules| && Key(r) == Key(rules[i]) && i == IndexOf(rules, Key(r))
    ensures FirstUnder(rules[i := r], key) == if key == Key(r) then Some(r) else FirstUnder(rules, key)
  {
    hide Key;
    assert Keys(rules[i := r]) == Keys(rules);
    IndexMeans(rules, key);
  }

  /** A rule appended answers only if no rule did. */
  lemma FirstUnderAppend(rules: seq<Rule>, r: Rule, key: string)
    ensures FirstUnder(rules + [r], key)
         == if FirstUnder(rules, key).Some? then FirstUnder(rules, key) else if Key(r) == key then Some(r) else None
  {
    hide Key;
    var i, xs := IndexOf(rules, key), Keys(rules + [r]);
    IndexMeans(rules, key);
    assert xs == Keys(rules) + [Key(r)];
    FirstUnique(xs, key, if i < |rules| then i else if Key(r) == key then |rules| else |rules| + 1);
  }

  /** The rule list after an accepted `set_rule`, key by key. */
  lemma SetRules(rules: seq<Rule>, key: string, c: Category, p: Permission, asked: string)
    requires Normalize(key) == key
    ensures FirstUnder(AfterSet(rules, key, c, p), asked)
         == if asked != key then FirstUnder(rules, asked)
            else Some((if FirstUnder(rules, key).Some? then FirstUnder(rules, key).value else EmptyRule(key))
                      .WithOpinion(c, Some(p)))
  {
    hide Normalize;
    IndexMeans(rules, key);
    var i := IndexOf(rules, key);
    if i < |rules| {
      FirstUnderUpdate(rules, i, rules[i].WithOpinion(c, Some(p)), asked);
    } else {
      FirstUnderAppend(rules, EmptyRule(key).WithOpinion(c, Some(p)), asked);
    }
  }

  /** An accepted `set_rule` answers for its key and category, and changes no other answer. */
  lemma SetAnswers(rules: seq<Rule>, default: Permission, name: string, c: Category, p: Permission,
                   asked: string, d: Category)
    requires !Refused(name, c, p)
    ensures GetPermission(AfterSet(rules, Sanitize(name).value, c, p), default, asked, d)
         == if Normalize(asked) == Sanitize(name).value && d == c then p else GetPermission(rules, default, asked, d)
  {
    hide Normalize, Sanitize, AfterSet, IndexOf;
    SanitizedIsNormal(name);
    SetRules(rules, Sanitize(name).value, c, p, Normalize(asked));
  }

  /**
   The name that was set answers the new permission, whatever the name, except when a trailing `(pid:N)` was cut off
   outside the ALSA form: then its answer is the old one.
   */
  lemma SetAnswersForItsOwnName(rules: seq<Rule>, default: Permission, name: string, c: Category, p: Permission)
    requires !Refused(name, c, p)
    ensures GetPermission(AfterSet(rules, Sanitize(name).value, c, p), default, name, c)
         == if PidNote(Trim(name)).None? || Alsa(ToLower(Trim(name))) then p
            else GetPermission(rules, default, name, c)
  {
    hide Normalize, WithoutPid, Alsa, PidNote, AfterSet, GetPermission;
    SetAnswers(rules, default, name, c, p, name, c);
    WrittenKeyIsLookedUp(name);
  }

  lemma SetKeepsUnique(rules: seq<Rule>, name: string, c: Category, p: Permission)
    requires Unique(rules) && Sanitize(name).Some?
    ensures Unique(AfterSet(rules, Sanitize(name).value, c, p))
  {
    hide Normalize, Sanitize, IndexOf;
    SanitizedIsNormal(name);
    IndexMeans(rules, Sanitize(name).value);
  }

  lemma {:induction false} RemoveShape(rules: seq<Rule>, name: string)
    ensures forall r :: r in AfterRemove(rules, name) <==> r in rules && Key(r) != Normalize(name)
    ensures Unique(rules) ==> Unique(AfterRemove(rules, name))
  {
    hide Normalize;
    if rules != [] {
      var front, r := rules[..|rules| - 1], rules[|rules| - 1];
      RemoveShape(front, name);
      assert rules == front + [r];
    }
  }

  lemma {:induction false} RemoveKeepsOthers(rules: seq<Rule>, name: string, key: string)
    requires key != Normalize(name)
    ensures FirstUnder(AfterRemove(rules, name), key) == FirstUnder(rules, key)
  {
    hide Normalize, FirstUnder;
    if rules != [] {
      var front, r := rules[..|rules| - 1], rules[|rules| - 1];
      assert rules == front + [r];
      RemoveKeepsOthers(front, name, key);
      FirstUnderAppend(front, r, key);
      FirstUnderAppend(AfterRemove(front, name), r, key);
    }
  }

  /** After a removal the name falls through to the default, and no other name notices. */
  lemma RemoveAnswers(rules: seq<Rule>, default: Permission, name: string, asked: string, d: Category)
    ensures GetPermission(AfterRemove(rules, name), default, asked, d)
         == if Normalize(asked) == Normalize(name) then default else GetPermission(rules, default, asked, d)
  {
    hide Normalize, IndexOf;
    RemoveShape(rules, name);
    var key, after := Normalize(asked), AfterRemove(rules, name);
    if key != Normalize(name) {
      RemoveKeepsOthers(rules, name, key);
    } else {
      IndexMeans(after, key);
      assert forall r | r in after :: Key(r) != Normalize(name);
    }
  }

  /** An import never changes an answer that a rule gives, and keeps keys unique. */
  lemma {:induction false} ImportOnlyAdds(rules: seq<Rule>, planned: seq<Rule>)
    ensures rules <= AfterImport(rules, planned)
    ensures forall key | FirstUnder(rules, key).Some? ::
              FirstUnder(AfterImport(rules, planned), key) == FirstUnder(rules, key)
    ensures Unique(rules) ==> Unique(AfterImport(rules, planned))
  {
    hide Normalize, IndexOf;
    if planned != [] {
      var before, r := AfterImport(rules, planned[..|planned| - 1]), planned[|planned| - 1];
      ImportOnlyAdds(rules, planned[..|planned| - 1]);
      IndexMeans(before, Normalize(r.appName));
      forall key | FirstUnder(rules, key).Some?
        ensures FirstUnder(AfterImport(rules, planned), key) == FirstUnder(rules, key)
      {
        FirstUnderAppend(before, r, key);
      }
    }
  }

  /** And it adds exactly what was planned for names that had none: the first planned rule of each such key. */
  lemma {:induction false} ImportAdds(rules: seq<Rule>, planned: seq<Rule>, key: string)
    ensures FirstUnder(AfterImport(rules, planned), key)
         == if FirstUnder(rules, key).Some? then FirstUnder(rules, key) else FirstUnder(planned, key)
  {
    hide Normalize, FirstUnder;
    if planned == [] {
      NothingUnder(key);
    } else {
      var front, r := planned[..|planned| - 1], planned[|planned| - 1];
      assert front + [r] == planned;
      ImportAdds(rules, front, key);
      FirstUnderAppend(front, r, key);
      FirstUnderAppend(AfterImport(rules, front), r, key);
    }
  }

  lemma NothingUnder(key: string)
    ensures FirstUnder([], key) == None
  {
  }

  /**
   After a binary was set, the rule of that name holds the path as given, or none for the empty path; everything else
   about it, and every other rule, is as it was. A path that is relative or missing changes nothing.
   */
  lemma SetExeWrites(rules: seq<Rule>, name: string, path: string, exists_: string -> bool, key: string)
    ensures var was, now := FirstUnder(rules, key), FirstUnder(AfterSetExe(rules, name, path, exists_), key);
            if key != Normalize(name) || was.None? || (path != "" && (path[0] != '/' || !exists_(path))) then now == was
            else now == Some(Rule(was.value.appName, was.value.microphone, was.value.camera, was.value.monitor,
                                  if path == "" then None else Some(path)))
  {
    hide Normalize;
    var i := IndexOf(rules, Normalize(name));
    IndexMeans(rules, Normalize(name));
    if i < |rules| {
      FirstUnderUpdate(rules, i, rules[i].(exePath := if path == "" then None else Some(path)), key);
    }
  }

  /** A binary is no answer: attaching or clearing one changes no permission. */
  lemma SetExeAnswers(rules: seq<Rule>, default: Permission, name: string, path: string, exists_: string -> bool,
                      asked: string, c: Category)
    ensures GetPermission(AfterSetExe(rules, name, path, exists_), default, asked, c)
         == GetPermission(rules, default, asked, c)
  {
    hide Normalize, AfterSetExe, FirstUnder;
    SetExeWrites(rules, name, path, exists_, Normalize(asked));
  }

  /** The rule that answers is the first one with the key of the name, and an opinion it lacks is the default. */
  lemma AnswerIs(rules: seq<Rule>, default: Permission, name: string, c: Category, i: nat)
    requires i <= |rules| && (i < |rules| ==> Normalize(rules[i].appName) == Normalize(name))
    requires forall j | 0 <= j < i :: Normalize(rules[j].appName) != Normalize(name)
    ensures var opinion := if i == |rules| then None
                           else match c
                                case Microphone => rules[i].microphone
                                case Camera => rules[i].camera
                                case Monitor => rules[i].monitor;
            GetPermission(rules, default, name, c) == if opinion.Some? then opinion.value else default
  {
    hide Normalize;
    FirstUnique(Keys(rules), Normalize(name), i);
  }
}
