/**
 The version-keyed cache of a group's member list, under provider updates and
 any number of concurrent calls.
 */
module GroupCache {
  import opened GroupFilter
  import GroupListing

  /** What a provider held at each of its versions; the last entry is current. */
  type History = seq<seq<Proxy>>

  /** Which version each read of each provider saw. */
  type Taken = seq<seq<nat>>

  predicate Configured(s: Settings, hs: seq<History>) {
    |hs| == |s.compatible| > 0 && forall i | 0 <= i < |hs| :: |hs[i]| > 0
  }

  function Current(hs: seq<History>): seq<nat>
    requires forall i | 0 <= i < |hs| :: |hs[i]| > 0
  {
    seq(|hs|, i requires 0 <= i < |hs| => |hs[i]| - 1)
  }

  // ---- one rebuild's reads ----

  /** The providers before the last one are read in full, the last one at least once. */
  predicate InProgress(s: Settings, taken: Taken) {
    && |taken| <= |s.compatible|
    && (forall i | 0 <= i < |taken| - 1 :: |taken[i]| == Reads(s, i))
    && (taken != [] ==> 0 < |taken[|taken| - 1]| <= Reads(s, |taken| - 1))
  }

  predicate Complete(s: Settings, taken: Taken) {
    |taken| == |s.compatible| && forall i | 0 <= i < |taken| :: |taken[i]| == Reads(s, i)
  }

  /** The next call of Proxies(): the same provider again for the next filter, or the next provider. */
  function ReadNext(s: Settings, hs: seq<History>, taken: Taken): Taken
    requires Configured(s, hs) && InProgress(s, taken) && !Complete(s, taken)
  {
    var n := |taken|;
    if n > 0 && |taken[n - 1]| < Reads(s, n - 1) then taken[n - 1 := taken[n - 1] + [|hs[n - 1]| - 1]]
    else
      assert n < |s.compatible|;
      taken + [[|hs[n]| - 1]]
  }

  /** Every read saw a version that exists and is no older than the one in versions. */
  predicate AtLeast(hs: seq<History>, versions: seq<nat>, taken: Taken) {
    && |taken| <= |hs| == |versions|
    && forall i, k | 0 <= i < |taken| && 0 <= k < |taken[i]| :: versions[i] <= taken[i][k] < |hs[i]|
  }

  predicate Exist(hs: seq<History>, taken: Taken) {
    |taken| <= |hs| && forall i, k | 0 <= i < |taken| && 0 <= k < |taken[i]| :: taken[i][k] < |hs[i]|
  }

  function ReadOne(h: History, seen: seq<nat>): Reading
    requires forall k | 0 <= k < |seen| :: seen[k] < |h|
  {
    seq(|seen|, k requires 0 <= k < |seen| => h[seen[k]])
  }

  /** The contents those reads returned. */
  function ReadAs(hs: seq<History>, taken: Taken): seq<Reading>
    requires Exist(hs, taken)
  {
    seq(|taken|, i requires 0 <= i < |taken| => ReadOne(hs[i], taken[i]))
  }

  /** What a call returns when its rebuild made those reads. */
  function Rebuilt(s: Settings, hs: seq<History>, taken: Taken): seq<Proxy>
    requires Complete(s, taken) && Exist(hs, taken)
  {
    var list := BuildList(s, ReadAs(hs, taken));
    if list == [] then [s.fallback] else list
  }

  /** The list with every provider read at its current version. */
  function Uncached(s: Settings, hs: seq<History>): seq<Proxy>
    requires Configured(s, hs)
  {
    Rebuilt(s, hs, CurrentReads(s, hs))
  }

  function CurrentReads(s: Settings, hs: seq<History>): (taken: Taken)
    requires Configured(s, hs)
    ensures Complete(s, taken) && Exist(hs, taken)
  {
    seq(|hs|, i requires 0 <= i < |hs| => seq(Reads(s, i), _ => |hs[i]| - 1))
  }

  /** What every provider holds now, as often as the group reads it. */
  function Contents(s: Settings, hs: seq<History>): (rs: seq<Reading>)
    requires Configured(s, hs)
    ensures WellRead(s, rs)
  {
    seq(|hs|, i requires 0 <= i < |hs| => seq(Reads(s, i), _ => hs[i][|hs[i]| - 1]))
  }

  lemma CurrentContents(s: Settings, hs: seq<History>)
    requires Configured(s, hs)
    ensures ReadAs(hs, CurrentReads(s, hs)) == Contents(s, hs)
  {
    var taken := CurrentReads(s, hs);
    forall i | 0 <= i < |hs| ensures ReadOne(hs[i], taken[i]) == Contents(s, hs)[i] {
    }
  }

  /**
   The uncached list, said of the providers' present contents: the proxies at the shown
   places in their order, and the fallback alone when no place is shown.
   */
  lemma UncachedExactly(s: Settings, hs: seq<History>) returns (at: seq<GroupListing.Place>)
    requires Configured(s, hs)
    ensures var rs := Contents(s, hs);
            && (forall p :: p in at <==> GroupListing.Shown(s, rs, p))
            && (at == [] ==> Uncached(s, hs) == [s.fallback])
            && (at != [] ==> GroupListing.Listed(rs, if GroupListing.Reorders(s, rs) then s.filters else [], Uncached(s, hs), at))
  {
    CurrentContents(s, hs);
    at := GroupListing.BuiltExactly(s, Contents(s, hs));
  }

  // ---- the protocol ----

  datatype Call =
    | Scanning(versions: seq<nat>)                                    // reading versions, no lock held
    | Rebuilding(versions: seq<nat>, taken: Taken)                    // getProxiesMutex held
    | Back(versions: seq<nat>, taken: Taken, list: seq<Proxy>)

  datatype State = State(
    histories: seq<History>,
    locked: bool,
    providerVersions: seq<nat>,
    providerProxies: seq<Proxy>,
    cachedReads: Taken,               // what the cached list was built from
    calls: map<nat, Call>)

  datatype Step =
    | Update(provider: nat, contents: seq<Proxy>)     // setProxies
    | Begin(call: nat)
    | ReadVersion(call: nat)
    | Lock(call: nat)
    | ReadProxies(call: nat)
    | Finish(call: nat)

  predicate Enabled(s: Settings, st: State, step: Step) {
    match step
    case Update(i, _) => i < |st.histories|
    case Begin(c) => c !in st.calls
    case ReadVersion(c) => c in st.calls && st.calls[c].Scanning? && |st.calls[c].versions| < |st.histories|
    case Lock(c) => !st.locked && c in st.calls && st.calls[c].Scanning? && |st.calls[c].versions| == |st.histories|
    case ReadProxies(c) =>
      && c in st.calls && st.calls[c].Rebuilding?
      && Configured(s, st.histories) && InProgress(s, st.calls[c].taken) && !Complete(s, st.calls[c].taken)
    case Finish(c) =>
      && c in st.calls && st.calls[c].Rebuilding?
      && Complete(s, st.calls[c].taken) && Exist(st.histories, st.calls[c].taken)
  }

  function SetCall(st: State, c: nat, call: Call): State {
    st.(calls := st.calls[c := call])
  }

  function DoUpdate(st: State, i: nat, contents: seq<Proxy>): State
    requires i < |st.histories|
  {
    st.(histories := st.histories[i := st.histories[i] + [contents]])
  }

  function DoLock(st: State, c: nat, got: seq<nat>): State {
    if got == st.providerVersions then SetCall(st, c, Back(got, st.cachedReads, st.providerProxies))
    else SetCall(st, c, Rebuilding(got, [])).(locked := true)
  }

  function DoFinish(s: Settings, st: State, c: nat, got: seq<nat>, taken: Taken): State
    requires Complete(s, taken) && Exist(st.histories, taken)
  {
    var list := BuildList(s, ReadAs(st.histories, taken));
    var back := SetCall(st, c, Back(got, taken, Rebuilt(s, st.histories, taken))).(locked := false);
    if list == [] then back
    else back.(providerVersions := got, providerProxies := list, cachedReads := taken)
  }

  function Next(s: Settings, st: State, step: Step): State
    requires Configured(s, st.histories) && Enabled(s, st, step)
  {
    match step
    case Update(i, contents) => DoUpdate(st, i, contents)
    case Begin(c) => SetCall(st, c, Scanning([]))
    case ReadVersion(c) =>
      var got := st.calls[c].versions;
      SetCall(st, c, Scanning(got + [|st.histories[|got|]| - 1]))
    case Lock(c) => DoLock(st, c, st.calls[c].versions)
    case ReadProxies(c) =>
      SetCall(st, c, Rebuilding(st.calls[c].versions, ReadNext(s, st.histories, st.calls[c].taken)))
    case Finish(c) => DoFinish(s, st, c, st.calls[c].versions, st.calls[c].taken)
  }

  // ---- what every step keeps ----

  ghost predicate CallValid(s: Settings, hs: seq<History>, c: Call) {
    match c
    case Scanning(got) => |got| <= |hs| && forall i | 0 <= i < |got| :: got[i] < |hs[i]|
    case Rebuilding(got, taken) =>
      && |got| == |hs| && (forall i | 0 <= i < |got| :: got[i] < |hs[i]|)
      && InProgress(s, taken) && AtLeast(hs, got, taken)
    case Back(got, taken, list) =>
      && |got| == |hs| && (forall i | 0 <= i < |got| :: got[i] < |hs[i]|)
      && Complete(s, taken) && AtLeast(hs, got, taken)
      && list == Rebuilt(s, hs, taken) && list != []
  }

  ghost predicate CacheValid(s: Settings, st: State) {
    st.providerVersions != [] ==>
      && Complete(s, st.cachedReads)
      && AtLeast(st.histories, st.providerVersions, st.cachedReads)
      && st.providerProxies == Rebuilt(s, st.histories, st.cachedReads) && st.providerProxies != []
  }

  ghost predicate Inv(s: Settings, st: State) {
    && Configured(s, st.histories)
    && CacheValid(s, st)
    && forall c <- st.calls :: CallValid(s, st.histories, st.calls[c])
  }

  lemma RebuiltGrows(s: Settings, hs: seq<History>, grown: seq<History>, taken: Taken)
    requires Complete(s, taken) && Exist(hs, taken)
    requires |grown| == |hs| && forall i | 0 <= i < |hs| :: hs[i] <= grown[i]
    ensures Exist(grown, taken) && Rebuilt(s, grown, taken) == Rebuilt(s, hs, taken)
  {
    assert ReadAs(grown, taken) == ReadAs(hs, taken) by {
      forall i | 0 <= i < |taken| ensures ReadOne(grown[i], taken[i]) == ReadOne(hs[i], taken[i]) {
        forall k | 0 <= k < |taken[i]| ensures grown[i][taken[i][k]] == hs[i][taken[i][k]] {
        }
      }
    }
  }

  lemma UpdateKeeps(s: Settings, st: State, i: nat, contents: seq<Proxy>)
    requires Inv(s, st) && i < |st.histories|
    ensures Inv(s, DoUpdate(st, i, contents))
  {
    var hs, grown := st.histories, DoUpdate(st, i, contents).histories;
    forall c | c in st.calls ensures CallValid(s, grown, st.calls[c]) {
      CallGrows(s, hs, grown, st.calls[c]);
    }
    if st.providerVersions != [] {
      RebuiltGrows(s, hs, grown, st.cachedReads);
    }
  }

  lemma CallGrows(s: Settings, hs: seq<History>, grown: seq<History>, c: Call)
    requires CallValid(s, hs, c)
    requires |grown| == |hs| && forall i | 0 <= i < |hs| :: hs[i] <= grown[i]
    ensures CallValid(s, grown, c)
  {
    if c.Back? {
      RebuiltGrows(s, hs, grown, c.taken);
    }
  }

  lemma SetCallKeeps(s: Settings, st: State, c: nat, call: Call)
    requires Inv(s, st) && CallValid(s, st.histories, call)
    ensures Inv(s, SetCall(st, c, call)) && Inv(s, SetCall(st, c, call).(locked := true))
    ensures Inv(s, SetCall(st, c, call).(locked := false))
  {
  }

  lemma ReadNextKeeps(s: Settings, hs: seq<History>, got: seq<nat>, taken: Taken)
    requires Configured(s, hs) && InProgress(s, taken) && !Complete(s, taken) && AtLeast(hs, got, taken)
    requires forall i | 0 <= i < |got| :: got[i] < |hs[i]|
    ensures CallValid(s, hs, Rebuilding(got, ReadNext(s, hs, taken)))
  {
  }

  lemma FinishKeeps(s: Settings, st: State, c: nat, got: seq<nat>, taken: Taken)
    requires Inv(s, st) && CallValid(s, st.histories, Rebuilding(got, taken)) && Complete(s, taken)
    ensures Exist(st.histories, taken) && Inv(s, DoFinish(s, st, c, got, taken))
  {
    var back := Back(got, taken, Rebuilt(s, st.histories, taken));
    assert CallValid(s, st.histories, back);
    SetCallKeeps(s, st, c, back);
  }

  lemma StepKeepsInv(s: Settings, st: State, step: Step)
    requires Inv(s, st) && Enabled(s, st, step)
    ensures Inv(s, Next(s, st, step))
  {
    if step.Update? {
      UpdateKeeps(s, st, step.provider, step.contents);
    } else {
      assert !step.Begin? ==> CallValid(s, st.histories, st.calls[step.call]);
      match step
      case Begin(c) => SetCallKeeps(s, st, c, Scanning([]));
      case ReadVersion(c) =>
        var got := st.calls[c].versions;
        SetCallKeeps(s, st, c, Scanning(got + [|st.histories[|got|]| - 1]));
      case Lock(c) =>
        var got := st.calls[c].versions;
        SetCallKeeps(s, st, c, if got == st.providerVersions then Back(got, st.cachedReads, st.providerProxies) else Rebuilding(got, []));
      case ReadProxies(c) =>
        var got, taken := st.calls[c].versions, st.calls[c].taken;
        ReadNextKeeps(s, st.histories, got, taken);
        SetCallKeeps(s, st, c, Rebuilding(got, ReadNext(s, st.histories, taken)));
      case Finish(c) => FinishKeeps(s, st, c, st.calls[c].versions, st.calls[c].taken);
    }
  }

  // ---- whole runs ----

  ghost predicate Run(s: Settings, sts: seq<State>, steps: seq<Step>) {
    && |sts| == |steps| + 1
    && Configured(s, sts[0].histories) && sts[0].calls == map[] && sts[0].providerVersions == []
    && forall i {:trigger steps[i]} | 0 <= i < |steps| :: StepsTo(s, sts[i], steps[i], sts[i + 1])
  }

  ghost predicate StepsTo(s: Settings, st: State, step: Step, next: State) {
    Configured(s, st.histories) && Enabled(s, st, step) && next == Next(s, st, step)
  }

  lemma StepsToKeeps(s: Settings, st: State, step: Step, next: State)
    requires Inv(s, st) && StepsTo(s, st, step, next)
    ensures Inv(s, next)
  {
    StepKeepsInv(s, st, step);
  }

  lemma {:induction false} RunKeepsInv(s: Settings, sts: seq<State>, steps: seq<Step>, i: nat)
    requires Run(s, sts, steps) && i < |sts|
    ensures Inv(s, sts[i])
    decreases i
  {
    if i > 0 {
      RunKeepsInv(s, sts, steps, i - 1);
      StepsToKeeps(s, sts[i - 1], steps[i - 1], sts[i]);
    }
  }

  /**
   Every returned list is non-empty and is what the pipeline makes of contents no
   older than the versions its call read first, cached or not.
   */
  lemma ReturnedListIsFresh(s: Settings, sts: seq<State>, steps: seq<Step>, i: nat, c: nat)
    requires Run(s, sts, steps) && i < |sts| && c in sts[i].calls && sts[i].calls[c].Back?
    ensures var call, hs := sts[i].calls[c], sts[i].histories;
            && Complete(s, call.taken) && AtLeast(hs, call.versions, call.taken)
            && call.list == Rebuilt(s, hs, call.taken) && call.list != []
  {
    RunKeepsInv(s, sts, steps, i);
    assert CallValid(s, sts[i].histories, sts[i].calls[c]);
  }

  /** Reads no older than the current versions are reads of the current contents. */
  lemma CurrentTaken(s: Settings, hs: seq<History>, taken: Taken)
    requires Configured(s, hs) && Complete(s, taken) && AtLeast(hs, Current(hs), taken)
    ensures taken == CurrentReads(s, hs)
  {
    var now := CurrentReads(s, hs);
    forall j | 0 <= j < |taken| ensures taken[j] == now[j] {
      forall k | 0 <= k < |taken[j]| ensures taken[j][k] == |hs[j]| - 1 {
      }
    }
  }

  /** A call that saw the versions still current when it returns has the uncached list. */
  lemma QuietCallIsUncached(s: Settings, sts: seq<State>, steps: seq<Step>, i: nat, c: nat)
    requires Run(s, sts, steps) && i < |sts| && c in sts[i].calls && sts[i].calls[c].Back?
    requires Configured(s, sts[i].histories) && sts[i].calls[c].versions == Current(sts[i].histories)
    ensures sts[i].calls[c].list == Uncached(s, sts[i].histories)
  {
    ReturnedListIsFresh(s, sts, steps, i, c);
    CurrentTaken(s, sts[i].histories, sts[i].calls[c].taken);
  }

  // ---- the object itself ----

  /** Every provider has gone on from hs to grown. */
  predicate Grown(hs: seq<History>, grown: seq<History>) {
    |grown| == |hs| && forall i | 0 <= i < |hs| :: hs[i] <= grown[i]
  }

  lemma CacheGrows(s: Settings, st: State, grown: seq<History>)
    requires Configured(s, st.histories) && CacheValid(s, st) && Grown(st.histories, grown)
    ensures Configured(s, grown) && CacheValid(s, st.(histories := grown))
  {
    if st.providerVersions != [] {
      RebuiltGrows(s, st.histories, grown, st.cachedReads);
    }
  }

  /** What the section under getProxiesMutex leaves in the fields. */
  function LockedResult(s: Settings, st: State, versions: seq<nat>, taken: Taken): State
    requires Complete(s, taken) && Exist(st.histories, taken)
  {
    if versions == st.providerVersions then DoLock(st, 0, versions) else DoFinish(s, st, 0, versions, taken)
  }

  /** The list of a call that is back is non-empty and was made from reads no older than its versions. */
  ghost predicate BackValid(s: Settings, hs: seq<History>, versions: seq<nat>, taken: Taken, list: seq<Proxy>) {
    Complete(s, taken) && AtLeast(hs, versions, taken) && list == Rebuilt(s, hs, taken) && list != []
  }

  lemma HitReturns(s: Settings, st: State)
    requires CacheValid(s, st) && st.providerVersions != []
    ensures BackValid(s, st.histories, st.providerVersions, st.cachedReads, st.providerProxies)
  {
  }

  lemma RebuildReturns(s: Settings, hs: seq<History>, versions: seq<nat>, taken: Taken)
    requires Complete(s, taken) && AtLeast(hs, versions, taken)
    ensures Exist(hs, taken) && BackValid(s, hs, versions, taken, Rebuilt(s, hs, taken))
  {
  }

  class GroupBase {
    const settings: Settings
    var providerVersions: seq<nat>
    var providerProxies: seq<Proxy>
    ghost var cachedReads: Taken

    ghost function AsState(hs: seq<History>): State
      reads this
    {
      State(hs, false, providerVersions, providerProxies, cachedReads, map[])
    }

    /** The cached list was built from reads no older than the versions it is kept under. */
    ghost predicate Valid(hs: seq<History>)
      reads this
    {
      Configured(settings, hs) && CacheValid(settings, AsState(hs))
    }

    constructor (s: Settings)
      ensures settings == s && providerVersions == []
      ensures forall hs :: Configured(s, hs) ==> Valid(hs)
    {
      settings := s;
      providerVersions, providerProxies, cachedReads := [], [], [];
    }

    /**
     The section under getProxiesMutex, for a call that read `versions` before it and whose
     reads of the providers, should it rebuild, see the versions in `taken`.
     */
    method LockedSection(versions: seq<nat>, hs: seq<History>, taken: Taken) returns (list: seq<Proxy>, ghost used: Taken)
      requires Valid(hs) && versions != [] && Complete(settings, taken) && AtLeast(hs, versions, taken)
      modifies this
      ensures Valid(hs) && BackValid(settings, hs, versions, used, list)
      ensures versions == old(providerVersions) ==>
                list == old(providerProxies) && providerVersions == old(providerVersions) && providerProxies == old(providerProxies)
      ensures versions != old(providerVersions) ==>
                used == taken && (BuildList(settings, ReadAs(hs, taken)) != [] ==> providerVersions == versions && providerProxies == list)
      ensures var after := LockedResult(settings, old(AsState(hs)), versions, taken);
              && AsState(hs) == after.(locked := false, calls := map[]) && after.calls[0] == Back(versions, used, list)
    {
      RebuildReturns(settings, hs, versions, taken);
      if versions == providerVersions {
        HitReturns(settings, AsState(hs));
        return providerProxies, cachedReads;
      }
      used := taken;
      list := Build(settings, ReadAs(hs, taken));
      if list == [] {
        return [settings.fallback], used;
      }
      providerVersions, providerProxies, cachedReads := versions, list, taken;
    }

    /** A call during which no provider is updated. */
    method GetProxies(hs: seq<History>) returns (list: seq<Proxy>)
      requires Valid(hs)
      modifies this
      ensures Valid(hs)
      ensures list == Uncached(settings, hs) && list != []
    {
      var versions: seq<nat> := [];
      for i := 0 to |hs|
        invariant versions == Current(hs)[..i]
      {
        versions := versions + [|hs[i]| - 1];
      }
      assert Current(hs)[..|hs|] == Current(hs);
      ghost var used;
      list, used := LockedSection(versions, hs, CurrentReads(settings, hs));
      CurrentTaken(settings, hs, used);
    }
  }

  /** The object stays valid under any updates of its providers. */
  lemma ValidSurvivesUpdates(g: GroupBase, hs: seq<History>, grown: seq<History>)
    requires g.Valid(hs) && Grown(hs, grown)
    ensures g.Valid(grown)
  {
    CacheGrows(g.settings, g.AsState(hs), grown);
  }

  datatype ProviderUpdate = ProviderUpdate(provider: nat, contents: seq<Proxy>)

  function Updated(hs: seq<History>, u: ProviderUpdate): seq<History> {
    if u.provider < |hs| then hs[u.provider := hs[u.provider] + [u.contents]] else hs
  }

  /** The list is what the pipeline makes of the providers' present contents. */
  ghost predicate Answers(s: Settings, hs: seq<History>, list: seq<Proxy>) {
    Configured(s, hs) && list == Uncached(s, hs)
  }

  method AskAfter(g: GroupBase, hs: seq<History>, u: ProviderUpdate) returns (list: seq<Proxy>)
    requires g.Valid(hs)
    modifies g
    ensures g.Valid(Updated(hs, u)) && Answers(g.settings, Updated(hs, u), list)
  {
    ValidSurvivesUpdates(g, hs, Updated(hs, u));
    list := g.GetProxies(Updated(hs, u));
  }

  /** Each list answers for the contents right after the update of the same position. */
  ghost predicate AllAnswer(s: Settings, hs: seq<History>, us: seq<ProviderUpdate>, lists: seq<seq<Proxy>>)
    decreases |us|
  {
    |lists| == |us| &&
    (us != [] ==> Answers(s, Updated(hs, us[0]), lists[0]) && AllAnswer(s, Updated(hs, us[0]), us[1..], lists[1..]))
  }

  /** One object asked after every one of a series of provider updates: each answer is the uncached list of that moment. */
  method AskAfterUpdates(g: GroupBase, hs: seq<History>, us: seq<ProviderUpdate>) returns (lists: seq<seq<Proxy>>)
    requires g.Valid(hs)
    modifies g
    ensures AllAnswer(g.settings, hs, us, lists)
    decreases |us|
  {
    lists := [];
    if us != [] {
      var list := AskAfter(g, hs, us[0]);
      var rest := AskAfterUpdates(g, Updated(hs, us[0]), us[1..]);
      lists := [list] + rest;
      assert lists[1..] == rest;
    }
  }
}
