/** Storage partitions: their names, and the profile chosen for each resolution.  The user data of one browser context
    and of its tabs. */
module StoragePartition {

  import opened Wrappers

  const SEPARATOR: char := '#'
  const DOMAIN: string := "purecloak"

  function BuildPartitionName(workspace: string, profile: string): string {
    if profile == "" then workspace else workspace + [SEPARATOR] + profile
  }

  // --- Names ---------------------------------------------------------------------------------------------

  /** The workspace and the profile of a name, split at its first separator. */
  function NameParts(name: string): (string, string) {
    if name == "" then ("", "")
    else if name[0] == SEPARATOR then ("", name[1..])
    else
      var parts := NameParts(name[1..]);
      ([name[0]] + parts.0, parts.1)
  }

  lemma {:induction false} NameRoundTrip(workspace: string, profile: string)
    requires SEPARATOR !in workspace
    ensures NameParts(BuildPartitionName(workspace, profile)) == (workspace, profile)
  {
    var name := BuildPartitionName(workspace, profile);
    if workspace == "" {
      assert profile != "" ==> name[0] == SEPARATOR && name[1..] == profile;
    } else {
      var rest := BuildPartitionName(workspace[1..], profile);
      assert workspace == [workspace[0]] + workspace[1..];
      assert name == [workspace[0]] + rest;
      assert name[0] == workspace[0] && name[1..] == rest;
      hide BuildPartitionName;
      NameRoundTrip(workspace[1..], profile);
    }
  }

  /** For workspace ids without the separator, a name determines the workspace and the profile. */
  lemma NamesAreInjective(v: string, x: string, w: string, y: string)
    requires SEPARATOR !in v && SEPARATOR !in w
    ensures BuildPartitionName(v, x) == BuildPartitionName(w, y) <==> v == w && x == y
  {
    NameRoundTrip(v, x);
    NameRoundTrip(w, y);
  }

  /** No other workspace, its id free of the separator, has a partition of the same name as one of w's. */
  ghost predicate KeptApart(w: string) {
    forall x: string, v: string, y: string ::
      v != "" && SEPARATOR !in v && BuildPartitionName(w, x) == BuildPartitionName(v, y) ==> v == w && y == x
  }

  /** The first separator in w. */
  function FirstSeparator(w: string): (k: nat)
    requires SEPARATOR in w
    ensures k < |w| && w[k] == SEPARATOR && SEPARATOR !in w[..k]
  {
    if w[0] == SEPARATOR then 0
    else
      assert w == [w[0]] + w[1..];
      var k := FirstSeparator(w[1..]);
      assert w[..k + 1] == [w[0]] + w[1..][..k];
      k + 1
  }

  /** Which ids are safe: those without a separator, or starting with one, since the empty id has no partitions. */
  lemma KeptApartExactly(w: string)
    requires w != ""
    ensures KeptApart(w) <==> SEPARATOR !in w || w[0] == SEPARATOR
  {
    if SEPARATOR !in w {
      forall x: string, v: string, y: string
        | v != "" && SEPARATOR !in v && BuildPartitionName(w, x) == BuildPartitionName(v, y)
        ensures v == w && y == x
      {
        NamesAreInjective(w, x, v, y);
      }
    } else if w[0] == SEPARATOR {
      forall x: string, v: string, y: string | v != "" && SEPARATOR !in v
        ensures BuildPartitionName(w, x) != BuildPartitionName(v, y)
      {
        assert BuildPartitionName(w, x)[0] == SEPARATOR && BuildPartitionName(v, y)[0] == v[0];
      }
    } else {
      var k := FirstSeparator(w);
      var v, x := w[..k], "x";
      var y := w[k + 1..] + [SEPARATOR] + x;
      assert w == v + [SEPARATOR] + w[k + 1..];
      assert BuildPartitionName(w, x) == BuildPartitionName(v, y);
      assert v != w;
    }
  }

  /** Two workspaces share a name exactly when one id, followed by the separator, is the beginning of the other. */
  lemma NamesCoincideExactly(v: string, w: string)
    requires v != w
    ensures (exists x: string, y: string :: BuildPartitionName(v, x) == BuildPartitionName(w, y)) <==>
            v + [SEPARATOR] <= w || w + [SEPARATOR] <= v
  {
    if x: string, y: string :| BuildPartitionName(v, x) == BuildPartitionName(w, y) {
      if |v| < |w| {
        ShorterIsPrefix(v, x, w, y);
      } else {
        ShorterIsPrefix(w, y, v, x);
      }
    }
    if v + [SEPARATOR] <= w {
      SharedName(v, w);
    }
    if w + [SEPARATOR] <= v {
      SharedName(w, v);
    }
  }

  lemma ShorterIsPrefix(v: string, x: string, w: string, y: string)
    requires |v| <= |w| && v != w && BuildPartitionName(v, x) == BuildPartitionName(w, y)
    ensures v + [SEPARATOR] <= w
  {
    var name := BuildPartitionName(v, x);
    assert v == name[..|v|] && w == name[..|w|];
    assert |v| == |w| ==> v == w;
    assert x == "" ==> |name| == |v|;
    assert name[|v|] == SEPARATOR;
  }

  lemma SharedName(v: string, w: string)
    requires v + [SEPARATOR] <= w
    ensures exists x: string, y: string :: BuildPartitionName(v, x) == BuildPartitionName(w, y)
  {
    var rest := w[|v| + 1..];
    assert w == v + [SEPARATOR] + rest;
    if rest != "" {
      assert BuildPartitionName(v, rest) == BuildPartitionName(w, "");
    } else {
      assert v + [SEPARATOR] + "#x" == w + [SEPARATOR] + "x";
      assert BuildPartitionName(v, "#x") == BuildPartitionName(w, "x");
    }
  }

  // --- State and steps -----------------------------------------------------------------------------------

  datatype Kind = Normal | Fingerprint

  datatype Controller = Controller(workspace: string, kind: Kind)

  type Tab = nat

  /** The user data of the context and the profiles stored with its tabs. */
  datatype State = State(controller: Option<Controller>, active: Option<string>, profiles: map<Tab, string>)

  datatype Config = Default | Partition(domain: string, name: string)

  datatype Op =
    | SetWorkspace(workspace: string, kind: Kind)
    | SetProfile(tab: Tab, profile: string)
    | SetActiveProfile(profile: string)
    | ConsumeActiveProfile
    | ResolveForSite
    | Resolve(contents: Option<Tab>)

  function GetProfile(s: State, tab: Tab): string {
    if tab in s.profiles then s.profiles[tab] else ""
  }

  function ActiveProfile(s: State): string {
    match s.active
    case Some(profile) => profile
    case None => ""
  }

  /** Resolution uses partitions only in a fingerprint workspace. */
  predicate Partitioned(s: State) {
    s.controller.Some? && s.controller.value.workspace != "" && s.controller.value.kind == Fingerprint
  }

  function OwnProfile(s: State, contents: Option<Tab>): string {
    match contents
    case Some(tab) => GetProfile(s, tab)
    case None => ""
  }

  /** The profile a resolution is for: the tab's own, else the active one. */
  function EffectiveProfile(s: State, contents: Option<Tab>): string {
    if OwnProfile(s, contents) != "" then OwnProfile(s, contents) else ActiveProfile(s)
  }

  function ConfigOf(s: State, contents: Option<Tab>): Config {
    if Partitioned(s) then
      Partition(DOMAIN, BuildPartitionName(s.controller.value.workspace, EffectiveProfile(s, contents)))
    else Default
  }

  function SetWorkspaceStep(s: State, workspace: string, kind: Kind): State {
    s.(controller := if workspace != "" then Some(Controller(workspace, kind)) else None)
  }

  function SetProfileStep(s: State, tab: Tab, profile: string): State {
    s.(profiles := if profile == "" then s.profiles - {tab} else s.profiles[tab := profile])
  }

  /** A resolution uses the active profile up unless the tab has its own. */
  function ResolveStep(s: State, contents: Option<Tab>): State {
    if Partitioned(s) && OwnProfile(s, contents) == "" then s.(active := None) else s
  }

  function Next(s: State, op: Op): State {
    match op
    case SetWorkspace(workspace, kind) => SetWorkspaceStep(s, workspace, kind)
    case SetProfile(tab, profile) => SetProfileStep(s, tab, profile)
    case SetActiveProfile(profile) => s.(active := Some(profile))
    case ConsumeActiveProfile => s.(active := None)
    case ResolveForSite => ResolveStep(s, None)
    case Resolve(contents) => ResolveStep(s, contents)
  }

  /** What a step hands to its caller. */
  datatype Output = Nothing | Consumed(profile: string) | Resolved(config: Config)

  function OutputOf(s: State, op: Op): Output {
    match op
    case ConsumeActiveProfile => Consumed(ActiveProfile(s))
    case ResolveForSite => Resolved(ConfigOf(s, None))
    case Resolve(contents) => Resolved(ConfigOf(s, contents))
    case _ => Nothing
  }

  class StoragePartitionController {
    var controller: Option<Controller>
    var activeProfile: Option<string>
    var profiles: map<Tab, string>

    ghost function Now(): State
      reads this
    {
      State(controller, activeProfile, profiles)
    }

    constructor ()
      ensures Now() == State(None, None, map[])
    {
      controller, activeProfile, profiles := None, None, map[];
    }

    method SetWorkspace(workspace: string, kind: Kind)
      modifies this`controller
      ensures Now() == SetWorkspaceStep(old(Now()), workspace, kind)
      ensures controller == if workspace == "" then None else Some(Controller(workspace, kind))
    {
      if controller.Some? {
        controller := None;
      }
      if workspace != "" {
        controller := Some(Controller(workspace, kind));
      }
    }

    method SetProfile(tab: Tab, profile: string)
      modifies this`profiles
      ensures Now() == SetProfileStep(old(Now()), tab, profile)
      ensures profiles == if profile == "" then old(profiles) - {tab} else old(profiles)[tab := profile]
    {
      if profile == "" {
        profiles := profiles - {tab};
      } else {
        profiles := profiles[tab := profile];
      }
    }

    method SetActiveProfile(profile: string)
      modifies this`activeProfile
      ensures Now() == old(Now()).(active := Some(profile))
    {
      activeProfile := Some(profile);
    }

    /** Takes the value out, and removes what is then empty. */
    method ConsumeActiveProfile() returns (profile: string)
      modifies this`activeProfile
      ensures profile == ActiveProfile(old(Now())) && Now() == old(Now()).(active := None)
    {
      if activeProfile.None? {
        return "";
      }
      profile := activeProfile.value;
      activeProfile := Some("");
      if activeProfile.value == "" {
        activeProfile := None;
      }
    }

    method GetStoragePartitionConfigForSite() returns (config: Config)
      modifies this`activeProfile
      ensures config == ConfigOf(old(Now()), None) && Now() == ResolveStep(old(Now()), None)
    {
      if controller.None? || controller.value.workspace == "" || controller.value.kind == Normal {
        return Default;
      }
      var profile := ConsumeActiveProfile();
      config := Partition(DOMAIN, BuildPartitionName(controller.value.workspace, profile));
    }

    method GetStoragePartitionConfig(contents: Option<Tab>) returns (config: Config)
      modifies this`activeProfile
      ensures config == ConfigOf(old(Now()), contents) && Now() == ResolveStep(old(Now()), contents)
    {
      if controller.None? || controller.value.workspace == "" || controller.value.kind == Normal {
        return Default;
      }
      var profile := "";
      if contents.Some? && contents.value in profiles {
        profile := profiles[contents.value];
      }
      if profile == "" {
        profile := ConsumeActiveProfile();
      }
      config := Partition(DOMAIN, BuildPartitionName(controller.value.workspace, profile));
    }
  }

  // --- Whole runs ----------------------------------------------------------------------------------------

  function Outputs(s: State, ops: seq<Op>): (outputs: seq<Output>)
    ensures |outputs| == |ops|
    decreases |ops|
  {
    if ops == [] then [] else [OutputOf(s, ops[0])] + Outputs(Next(s, ops[0]), ops[1..])
  }

  function Final(s: State, ops: seq<Op>): State
    decreases |ops|
  {
    if ops == [] then s else Final(Next(s, ops[0]), ops[1..])
  }

  lemma {:induction false} OutputsAppend(s: State, before: seq<Op>, after: seq<Op>)
    ensures Outputs(s, before + after) == Outputs(s, before) + Outputs(Final(s, before), after)
    decreases |before|
  {
    if before == [] {
      assert before + after == after;
    } else {
      OutputsAppend(Next(s, before[0]), before[1..], after);
      assert (before + after)[1..] == before[1..] + after;
    }
  }

  ghost predicate DifferAtMostOnce<T>(a: seq<T>, b: seq<T>) {
    |a| == |b| && forall i, j :: 0 <= i < j < |a| ==> a[i] == b[i] || a[j] == b[j]
  }

  /** From states that differ only in the active profile, the same operations have the same outputs but for one. */
  lemma {:induction false} ActiveProfileUsedOnce(s: State, x: string, y: string, ops: seq<Op>)
    ensures DifferAtMostOnce(Outputs(s.(active := Some(x)), ops), Outputs(s.(active := Some(y)), ops))
    decreases |ops|
  {
    if ops == [] {
    } else {
      var sx, sy := s.(active := Some(x)), s.(active := Some(y));
      var tx, ty := Next(sx, ops[0]), Next(sy, ops[0]);
      var a, b := Outputs(tx, ops[1..]), Outputs(ty, ops[1..]);
      assert Outputs(sx, ops) == [OutputOf(sx, ops[0])] + a;
      assert Outputs(sy, ops) == [OutputOf(sy, ops[0])] + b;
      if tx != ty {
        KeptUnlessUsed(s, x, y, ops[0]);
        ActiveProfileUsedOnce(Next(s, ops[0]), x, y, ops[1..]);
        assert DifferAtMostOnce(a, b);
      }
    }
  }

  /** A step that does not make the states the same has not used the active profile. */
  lemma KeptUnlessUsed(s: State, x: string, y: string, op: Op)
    requires Next(s.(active := Some(x)), op) != Next(s.(active := Some(y)), op)
    ensures Next(s.(active := Some(x)), op) == Next(s, op).(active := Some(x))
    ensures Next(s.(active := Some(y)), op) == Next(s, op).(active := Some(y))
    ensures OutputOf(s.(active := Some(x)), op) == OutputOf(s.(active := Some(y)), op)
  {
  }

  /** Consume-once: in any run, changing the value given to one SetActiveProfile changes at most one output, a
      resolution's or a consumption's, and none before it. */
  lemma EachActiveProfileUsedOnce(s: State, before: seq<Op>, x: string, y: string, after: seq<Op>)
    ensures DifferAtMostOnce(Outputs(s, before + ([SetActiveProfile(x)] + after)),
                             Outputs(s, before + ([SetActiveProfile(y)] + after)))
    ensures Outputs(s, before + ([SetActiveProfile(x)] + after))[..|before|]
            == Outputs(s, before + ([SetActiveProfile(y)] + after))[..|before|]
  {
    hide Next, OutputOf, DifferAtMostOnce;
    var t := Final(s, before);
    var head := Outputs(s, before) + [Nothing];
    AfterSet(s, before, x, after);
    AfterSet(s, before, y, after);
    ActiveProfileUsedOnce(t, x, y, after);
    DifferPrefixed(head, Outputs(t.(active := Some(x)), after), Outputs(t.(active := Some(y)), after));
    assert head[..|before|] == Outputs(s, before);
  }

  lemma AfterSet(s: State, before: seq<Op>, x: string, after: seq<Op>)
    ensures Outputs(s, before + ([SetActiveProfile(x)] + after))
            == Outputs(s, before) + [Nothing] + Outputs(Final(s, before).(active := Some(x)), after)
  {
    OutputsAppend(s, before, [SetActiveProfile(x)] + after);
    assert ([SetActiveProfile(x)] + after)[1..] == after;
  }

  lemma DifferPrefixed<T>(head: seq<T>, a: seq<T>, b: seq<T>)
    requires DifferAtMostOnce(a, b)
    ensures DifferAtMostOnce(head + a, head + b)
  {
    forall i, j | 0 <= i < j < |head + a|
      ensures (head + a)[i] == (head + b)[i] || (head + a)[j] == (head + b)[j]
    {
      if i >= |head| {
        assert a[i - |head|] == b[i - |head|] || a[j - |head|] == b[j - |head|];
      }
    }
  }

  /** What a resolution gives, and whether it uses the active profile up.  Outside a fingerprint workspace it is the
      default partition.  In one, a tab with a profile gets that profile's partition and leaves the active profile
      alone; otherwise the active profile, if one is set, is used up; and without any the workspace's own partition is
      given. */
  lemma ResolveExactly(s: State, op: Op)
    requires op.Resolve? || op.ResolveForSite?
    ensures var own := op.Resolve? && op.contents.Some? && op.contents.value in s.profiles
                       && s.profiles[op.contents.value] != "";
            match s.controller
            case None => OutputOf(s, op) == Resolved(Default) && Next(s, op) == s
            case Some(Controller(w, kind)) =>
              if w == "" || kind == Normal then OutputOf(s, op) == Resolved(Default) && Next(s, op) == s
              else if own then
                && OutputOf(s, op) == Resolved(Partition("purecloak", w + "#" + s.profiles[op.contents.value]))
                && Next(s, op) == s
              else if s.active.Some? && s.active.value != "" then
                && OutputOf(s, op) == Resolved(Partition("purecloak", w + "#" + s.active.value))
                && Next(s, op) == s.(active := None)
              else
                && OutputOf(s, op) == Resolved(Partition("purecloak", w)) && Next(s, op) == s.(active := None)
  {
  }

  /** A tab keeps its profile until it is set again. */
  lemma {:induction false} ProfileStays(s: State, ops: seq<Op>, tab: Tab, profile: string)
    requires tab in s.profiles && s.profiles[tab] == profile
    requires forall i :: 0 <= i < |ops| && ops[i].SetProfile? ==> ops[i].tab != tab
    ensures var t := Final(s, ops); tab in t.profiles && t.profiles[tab] == profile
    decreases |ops|
  {
    if ops == [] {
    } else {
      ProfileStays(Next(s, ops[0]), ops[1..], tab, profile);
    }
  }

  /** The tab's last setting in a run was this profile. */
  ghost predicate LastSet(ops: seq<Op>, tab: Tab, profile: string) {
    exists i :: 0 <= i < |ops| && ops[i] == SetProfile(tab, profile)
                && forall j :: i < j < |ops| && ops[j].SetProfile? ==> ops[j].tab != tab
  }

  lemma {:induction false} FinalSplit(s: State, before: seq<Op>, after: seq<Op>)
    ensures Final(s, before + after) == Final(Final(s, before), after)
    decreases |before|
  {
    if before == [] {
      assert before + after == after;
    } else {
      FinalSplit(Next(s, before[0]), before[1..], after);
      assert (before + after)[1..] == before[1..] + after;
    }
  }

  lemma LastSetHolds(s: State, ops: seq<Op>, tab: Tab, profile: string)
    requires LastSet(ops, tab, profile) && profile != ""
    ensures var t := Final(s, ops); tab in t.profiles && t.profiles[tab] == profile
  {
    var i :| 0 <= i < |ops| && ops[i] == SetProfile(tab, profile)
             && forall j :: i < j < |ops| && ops[j].SetProfile? ==> ops[j].tab != tab;
    assert ops == ops[..i] + ([ops[i]] + ops[i + 1..]);
    FinalSplit(s, ops[..i], [ops[i]] + ops[i + 1..]);
    assert ([ops[i]] + ops[i + 1..])[1..] == ops[i + 1..];
    ProfileStays(Next(Final(s, ops[..i]), ops[i]), ops[i + 1..], tab, profile);
  }

  /** In any runs, whatever else happens in them, two tabs last set to different profiles never resolve to the same
      partition of fingerprint workspaces whose ids have no separator. */
  lemma TabsKeptApart(s: State, ops: seq<Op>, t: State, later: seq<Op>, a: Tab, p: string, b: Tab, q: string)
    requires LastSet(ops, a, p) && LastSet(later, b, q) && p != "" && q != "" && p != q
    requires var c := Final(s, ops).controller; c.Some? && c.value.kind == Fingerprint && c.value.workspace != ""
    requires var c := Final(t, later).controller; c.Some? && c.value.kind == Fingerprint && c.value.workspace != ""
    requires '#' !in Final(s, ops).controller.value.workspace && '#' !in Final(t, later).controller.value.workspace
    ensures OutputOf(Final(s, ops), Resolve(Some(a))) != OutputOf(Final(t, later), Resolve(Some(b)))
  {
    hide Final;
    LastSetHolds(s, ops, a, p);
    LastSetHolds(t, later, b, q);
    NamesAreInjective(Final(s, ops).controller.value.workspace, p, Final(t, later).controller.value.workspace, q);
  }

  /** Two resolutions, whenever they happen, share a partition exactly when they are for the same workspace and the same
      profile; so tabs with different profiles never do. */
  lemma SamePartitionExactly(s: State, t: State, a: Option<Tab>, b: Option<Tab>)
    requires Partitioned(s) && SEPARATOR !in s.controller.value.workspace
    requires Partitioned(t) && SEPARATOR !in t.controller.value.workspace
    ensures ConfigOf(s, a) == ConfigOf(t, b) <==>
            && s.controller.value.workspace == t.controller.value.workspace
            && EffectiveProfile(s, a) == EffectiveProfile(t, b)
  {
    NamesAreInjective(s.controller.value.workspace, EffectiveProfile(s, a),
                      t.controller.value.workspace, EffectiveProfile(t, b));
  }

  predicate SetsNothing(op: Op) {
    op.ConsumeActiveProfile? || op.ResolveForSite? || op.Resolve?
  }

  /** What the active profile does not cover: a tab without its own profile gets the active profile's partition on its
      first resolution and the workspace's shared one on every later one, until something is set again. */
  lemma {:induction false} SharedAfterFirstUse(s: State, tab: Tab, ops: seq<Op>, k: nat)
    requires Partitioned(s) && GetProfile(s, tab) == "" && ActiveProfile(s) != "" && k < |ops|
    requires ops[0] == Resolve(Some(tab)) && (forall i :: 0 <= i < |ops| ==> SetsNothing(ops[i]))
    requires k > 0 && ops[k] == Resolve(Some(tab))
    ensures Outputs(s, ops)[0]
            == Resolved(Partition(DOMAIN, s.controller.value.workspace + [SEPARATOR] + ActiveProfile(s)))
    ensures Outputs(s, ops)[k] == Resolved(Partition(DOMAIN, s.controller.value.workspace))
  {
    SharedWhileUnset(Next(s, ops[0]), tab, ops[1..], k - 1);
  }

  lemma {:induction false} SharedWhileUnset(s: State, tab: Tab, ops: seq<Op>, k: nat)
    requires Partitioned(s) && GetProfile(s, tab) == "" && s.active == None && k < |ops|
    requires forall i :: 0 <= i < |ops| ==> SetsNothing(ops[i])
    requires ops[k] == Resolve(Some(tab))
    ensures Outputs(s, ops)[k] == Resolved(Partition(DOMAIN, s.controller.value.workspace))
    decreases k
  {
    if k == 0 {
    } else {
      assert Next(s, ops[0]) == s;
      SharedWhileUnset(s, tab, ops[1..], k - 1);
    }
  }
}
