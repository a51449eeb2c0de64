/** Which sources a packet is compiled from: the target and the pinned sources with all
    they depend on, whole, and the rest of the manifest in a stable order as far as the
    budget goes. */
module PacketSources {
  import opened Wrappers
  import opened Contracts
  import opened SourceGraph
  import opened Policies
  import opened Eligibility
  import opened EligibilityLaws
  import opened FirstSeen
  import Packing

  /** A resolved read; canonical says whether its body is the frozen canonical document. */
  datatype SourceRead = SourceRead(descriptor: SourceDescriptor, blocks: nat, canonical: bool)

  datatype PacketError =
    | TargetNotInManifest | DuplicateMandatory | RepeatsTarget | DuplicateManifest | DuplicateSourceRead
    | SourceOutsideManifest | DescriptorMismatch | InvalidSourceBody | ManifestReadMissing
    | MandatoryOutsideManifest | Ineligible(code: ErrorCode) | DependencyReadMissing | DirectoryOnlyMandatory

  function ManifestHandles(sources: seq<SourceDescriptor>): (handles: seq<string>)
    ensures |handles| == |sources| && forall k :: 0 <= k < |sources| ==> handles[k] == sources[k].handle
  {
    seq(|sources|, k requires 0 <= k < |sources| => sources[k].handle)
  }

  function ReadHandles(all: seq<SourceRead>): (handles: seq<string>)
    ensures |handles| == |all| && forall k :: 0 <= k < |all| ==> handles[k] == all[k].descriptor.handle
  {
    seq(|all|, k requires 0 <= k < |all| => all[k].descriptor.handle)
  }

  // ----- Pins -----

  /** The refusal of the first n pins. */
  function PinError(target: string, pins: seq<string>, n: nat): Option<PacketError>
    requires n <= |pins|
  {
    if n == 0 then None
    else if PinError(target, pins, n - 1).Some? then PinError(target, pins, n - 1)
    else if pins[n - 1] in pins[..n - 1] then Some(DuplicateMandatory)
    else if pins[n - 1] == target then Some(RepeatsTarget)
    else None
  }

  lemma {:induction false} PinErrorIff(target: string, pins: seq<string>, n: nat)
    requires n <= |pins|
    ensures PinError(target, pins, n).None? <==> NoDuplicates(pins[..n]) && target !in pins[..n]
  {
    if n > 0 {
      PinErrorIff(target, pins, n - 1);
      NoDuplicatesSnoc(pins[..n - 1], pins[n - 1]);
      assert pins[..n] == pins[..n - 1] + [pins[n - 1]];
    }
  }

  lemma NoDuplicatesSnoc(s: seq<string>, x: string)
    ensures NoDuplicates(s + [x]) <==> NoDuplicates(s) && x !in s
  {
    var all := s + [x];
    assert all[|s|] == x && forall i :: 0 <= i < |s| ==> all[i] == s[i];
  }

  lemma {:induction false} PinErrorStays(target: string, pins: seq<string>, n: nat, m: nat)
    requires n <= m <= |pins| && PinError(target, pins, n).Some?
    ensures PinError(target, pins, m) == PinError(target, pins, n)
    decreases m
  {
    if n < m { PinErrorStays(target, pins, n, m - 1); }
  }

  /** The target and the pins, refusing a pin given twice or naming the target. */
  method MandatoryHandles(s: StorySnapshot, pins: seq<string>) returns (r: Result<seq<string>, PacketError>)
    ensures FindTarget(s.sources, s.target).None? ==> r == Err(TargetNotInManifest)
    ensures FindTarget(s.sources, s.target).Some? ==>
      var t := FindTarget(s.sources, s.target).value.handle;
      && (r.Ok? <==> NoDuplicates(pins) && t !in pins)
      && r == match PinError(t, pins, |pins|) case Some(e) => Err(e) case None => Ok([t] + pins)
  {
    var target := FindTarget(s.sources, s.target);
    if target.None? { return Err(TargetNotInManifest); }
    var t := target.value.handle;
    assert pins[..|pins|] == pins;
    PinErrorIff(t, pins, |pins|);
    var result, seen: set<string> := [t], {};
    for k := 0 to |pins|
      invariant result == [t] + pins[..k] && (forall h :: h in seen <==> h in pins[..k])
      invariant PinError(t, pins, k).None?
    {
      if pins[k] in seen {
        PinErrorStays(t, pins, k + 1, |pins|);
        return Err(DuplicateMandatory);
      }
      if pins[k] in result {
        PinErrorStays(t, pins, k + 1, |pins|);
        return Err(RepeatsTarget);
      }
      result, seen := result + [pins[k]], seen + {pins[k]};
    }
    return Ok(result);
  }

  // ----- Reads -----

  function ReadError(manifest: map<string, SourceDescriptor>, all: seq<SourceRead>, n: nat): Option<PacketError>
    requires n <= |all|
  {
    if n == 0 then None
    else if ReadError(manifest, all, n - 1).Some? then ReadError(manifest, all, n - 1)
    else
      var read := all[n - 1];
      if read.descriptor.handle in ReadHandles(all)[..n - 1] then Some(DuplicateSourceRead)
      else if read.descriptor.handle !in manifest then Some(SourceOutsideManifest)
      else if manifest[read.descriptor.handle] != read.descriptor then Some(DescriptorMismatch)
      else if !read.canonical then Some(InvalidSourceBody)
      else None
  }

  /** Every read is an exact canonical manifest source, supplied once. */
  ghost predicate ExactReads(manifest: map<string, SourceDescriptor>, all: seq<SourceRead>, n: nat)
    requires n <= |all|
  {
    && NoDuplicates(ReadHandles(all)[..n])
    && forall k :: 0 <= k < n ==>
         all[k].canonical && all[k].descriptor.handle in manifest
           && manifest[all[k].descriptor.handle] == all[k].descriptor
  }

  lemma {:induction false} ReadErrorIff(manifest: map<string, SourceDescriptor>, all: seq<SourceRead>, n: nat)
    requires n <= |all|
    ensures ReadError(manifest, all, n).None? <==> ExactReads(manifest, all, n)
  {
    if n > 0 {
      ReadErrorIff(manifest, all, n - 1);
      hide NoDuplicates;
      var handles := ReadHandles(all);
      NoDuplicatesSnoc(handles[..n - 1], handles[n - 1]);
      assert handles[..n] == handles[..n - 1] + [handles[n - 1]];
    }
  }

  lemma {:induction false} ReadErrorStays(manifest: map<string, SourceDescriptor>, all: seq<SourceRead>, n: nat, m: nat)
    requires n <= m <= |all| && ReadError(manifest, all, n).Some?
    ensures ReadError(manifest, all, m) == ReadError(manifest, all, n)
    decreases m
  {
    if n < m { ReadErrorStays(manifest, all, n, m - 1); }
  }

  predicate Within(part: seq<string>, all: set<string>) {
    forall k :: 0 <= k < |part| ==> part[k] in all
  }

  function SetOf(s: seq<string>): set<string> {
    set h | h in s
  }

  function ResolveError(s: StorySnapshot, all: seq<SourceRead>, mandatory: seq<string>): Option<PacketError> {
    var manifest := ByHandle(s.sources);
    if !NoDuplicates(ManifestHandles(s.sources)) then Some(DuplicateManifest)
    else if ReadError(manifest, all, |all|).Some? then ReadError(manifest, all, |all|)
    else if !Within(ManifestHandles(s.sources), SetOf(ReadHandles(all))) then Some(ManifestReadMissing)
    else if FindTarget(s.sources, s.target).None? then Some(TargetNotInManifest)
    else if !Within(mandatory, manifest.Keys) then Some(MandatoryOutsideManifest)
    else None
  }

  /** Every source of the manifest must be read, exactly and once, and nothing else. */
  method ResolveSources(s: StorySnapshot, all: seq<SourceRead>, mandatory: seq<string>)
    returns (error: Option<PacketError>)
    ensures error == ResolveError(s, all, mandatory)
    ensures error.None? <==>
      && NoDuplicates(ManifestHandles(s.sources)) && ExactReads(ByHandle(s.sources), all, |all|)
      && Within(ManifestHandles(s.sources), SetOf(ReadHandles(all))) && FindTarget(s.sources, s.target).Some?
      && Within(mandatory, ByHandle(s.sources).Keys)
  {
    hide ByHandle, FindTarget, NoDuplicates;
    var manifest := ByHandle(s.sources);
    ReadErrorIff(manifest, all, |all|);
    if !NoDuplicates(ManifestHandles(s.sources)) { return Some(DuplicateManifest); }
    var seen: set<string> := {};
    for k := 0 to |all|
      invariant (forall h :: h in seen <==> h in ReadHandles(all)[..k]) && ReadError(manifest, all, k).None?
    {
      var read := all[k];
      var h := read.descriptor.handle;
      if h in seen || h !in manifest || manifest[h] != read.descriptor || !read.canonical {
        ReadErrorStays(manifest, all, k + 1, |all|);
        return ReadError(manifest, all, k + 1);
      }
      seen := seen + {h};
    }
    assert ReadHandles(all)[..|all|] == ReadHandles(all);
    assert seen == SetOf(ReadHandles(all));
    if !Within(ManifestHandles(s.sources), seen) { return Some(ManifestReadMissing); }
    if FindTarget(s.sources, s.target).None? { return Some(TargetNotInManifest); }
    if !Within(mandatory, manifest.Keys) { return Some(MandatoryOutsideManifest); }
    return None;
  }

  // ----- The stable order -----

  function Kept(handles: seq<string>, keep: set<string>): (kept: seq<string>)
    ensures forall h :: h in kept <==> h in handles && h in keep
    ensures NoRepeats(handles) ==> NoRepeats(kept)
  {
    if handles == [] then []
    else
      var init, last := handles[..|handles| - 1], handles[|handles| - 1];
      assert handles == init + [last];
      if last in keep then Kept(init, keep) + [last] else Kept(init, keep)
  }

  /** The target, then the pinned evidence in the order given, then the manifest's order. */
  function StableOrder(target: string, mandatory: seq<string>, manifest: seq<string>,
                       eligible: set<string>): seq<string> {
    PushAll(PushAll([target], Kept(mandatory, eligible)), Kept(manifest, eligible))
  }

  lemma StableOrderIsExact(target: string, mandatory: seq<string>, manifest: seq<string>, eligible: set<string>)
    ensures var order := StableOrder(target, mandatory, manifest, eligible);
            && NoRepeats(order) && PushAll([target], Kept(mandatory, eligible)) <= order && order[0] == target
            && forall h :: h in order <==> h == target || (h in eligible && (h in mandatory || h in manifest))
  {
    hide PushAll;
    PushAllIsFirstSeen([target], Kept(mandatory, eligible));
    PushAllIsFirstSeen(PushAll([target], Kept(mandatory, eligible)), Kept(manifest, eligible));
  }

  lemma KeptSnoc(s: seq<string>, k: nat, keep: set<string>)
    requires k < |s|
    ensures Kept(s[..k + 1], keep) == if s[k] in keep then Kept(s[..k], keep) + [s[k]] else Kept(s[..k], keep)
  {
    assert s[..k + 1][..k] == s[..k];
  }

  lemma PushSnoc(seen: seq<string>, more: seq<string>, x: string)
    ensures PushAll(seen, more + [x]) == Push(PushAll(seen, more), x)
  {
    assert (more + [x])[..|more|] == more;
  }

  method StableSourceOrder(target: string, mandatory: seq<string>, manifest: seq<string>, eligible: set<string>)
    returns (order: seq<string>)
    ensures order == StableOrder(target, mandatory, manifest, eligible)
  {
    hide Kept, PushAll;
    order := [target];
    NothingPushed([target], mandatory, eligible);
    for k := 0 to |mandatory|
      invariant order == PushAll([target], Kept(mandatory[..k], eligible))
    {
      KeptSnoc(mandatory, k, eligible);
      PushSnoc([target], Kept(mandatory[..k], eligible), mandatory[k]);
      if mandatory[k] in eligible && mandatory[k] !in order { order := order + [mandatory[k]]; }
    }
    assert mandatory[..|mandatory|] == mandatory && manifest[..|manifest|] == manifest;
    ghost var head := order;
    NothingPushed(head, manifest, eligible);
    for k := 0 to |manifest|
      invariant order == PushAll(head, Kept(manifest[..k], eligible))
    {
      KeptSnoc(manifest, k, eligible);
      PushSnoc(head, Kept(manifest[..k], eligible), manifest[k]);
      if manifest[k] in eligible && manifest[k] !in order { order := order + [manifest[k]]; }
    }
  }

  lemma NothingPushed(head: seq<string>, rest: seq<string>, keep: set<string>)
    ensures PushAll(head, Kept(rest[..0], keep)) == head
  {
  }

  // ----- The plan of a packet -----

  datatype SourcePlan = SourcePlan(closure: seq<string>, order: seq<string>, mandatory: seq<string>,
                                   optional: seq<string>, directory: seq<string>)

  function DirectoryOnlyHandles(manifest: map<string, SourceDescriptor>): set<string> {
    set h | h in manifest && manifest[h].coverage == DirectoryOnly
  }

  /** Pinned sources whole, the others optional unless they have no text to offer. */
  function Split(manifest: map<string, SourceDescriptor>, target: string, closure: seq<string>, order: seq<string>,
                 workshop: bool)
    : Result<SourcePlan, PacketError>
  {
    var pinned, directory := SetOf(closure) + {target}, DirectoryOnlyHandles(manifest);
    if exists k :: 0 <= k < |closure| && closure[k] in directory then Err(DirectoryOnlyMandatory)
    else
      Ok(SourcePlan(closure, order, Kept(order, pinned),
              if workshop then [] else Kept(order, manifest.Keys - pinned - directory), Kept(order, directory)))
  }

  ghost function PlanOf(s: StorySnapshot, p: InformationPolicy, purpose: ContextPurpose, all: seq<SourceRead>,
                        pins: seq<string>, workshop: bool): Result<SourcePlan, PacketError>
  {
    var target := FindTarget(s.sources, s.target);
    if target.None? then Err(TargetNotInManifest)
    else
      var t := target.value.handle;
      var pinError, resolveError := PinError(t, pins, |pins|), ResolveError(s, all, [t] + pins);
      if pinError.Some? then Err(pinError.value)
      else if resolveError.Some? then Err(resolveError.value)
      else
        var full, pinned := Evaluate(s, p, purpose, ReadHandles(all)), Evaluate(s, p, purpose, [t] + pins);
        if full.Err? then Err(Ineligible(full.error))
        else if !Within(full.value.allDependencyHandles, SetOf(ReadHandles(all))) then Err(DependencyReadMissing)
        else if pinned.Err? then Err(Ineligible(pinned.error))
        else
          var closure := pinned.value.allDependencyHandles;
          Split(ByHandle(s.sources), t, closure,
                StableOrder(t, closure, ManifestHandles(s.sources), SetOf(full.value.allDependencyHandles)), workshop)
  }

  method PlanSources(s: StorySnapshot, p: InformationPolicy, purpose: ContextPurpose, all: seq<SourceRead>,
                     pins: seq<string>, workshop: bool) returns (r: Result<SourcePlan, PacketError>)
    ensures r == PlanOf(s, p, purpose, all, pins, workshop)
  {
    hide ByHandle, FindTarget, PinError, ResolveError, Evaluate, StableOrder, Split;
    var mandatory := MandatoryHandles(s, pins);
    if mandatory.Err? { return Err(mandatory.error); }
    var t := FindTarget(s.sources, s.target).value.handle;
    var refused := ResolveSources(s, all, mandatory.value);
    if refused.Some? { return Err(refused.value); }
    var full := EvaluateSources(s, p, purpose, ReadHandles(all));
    if full.Err? { return Err(Ineligible(full.error)); }
    if !Within(full.value.allDependencyHandles, SetOf(ReadHandles(all))) { return Err(DependencyReadMissing); }
    var pinned := EvaluateSources(s, p, purpose, mandatory.value);
    if pinned.Err? { return Err(Ineligible(pinned.error)); }
    var closure := pinned.value.allDependencyHandles;
    var order := StableSourceOrder(t, closure, ManifestHandles(s.sources), SetOf(full.value.allDependencyHandles));
    return Split(ByHandle(s.sources), t, closure, order, workshop);
  }

  // ----- What the plan guarantees -----

  lemma ManifestKeys(s: StorySnapshot)
    ensures forall h :: h in ManifestHandles(s.sources) <==> h in ByHandle(s.sources)
  {
    forall h | h in ManifestHandles(s.sources) ensures h in ByHandle(s.sources) {
      var k :| 0 <= k < |s.sources| && ManifestHandles(s.sources)[k] == h;
      EntryPresent(s.sources, k);
    }
    forall h | h in ByHandle(s.sources) ensures h in ManifestHandles(s.sources) {
      var k := HandleEntry(s.sources, h);
      assert ManifestHandles(s.sources)[k] == h;
    }
  }

  /** The receipt of an evaluation lists exactly what the selection reaches. */
  lemma ListedIffReached(s: StorySnapshot, p: InformationPolicy, purpose: ContextPurpose, requested: seq<string>)
    requires Evaluate(s, p, purpose, requested).Ok?
    ensures var list := Evaluate(s, p, purpose, requested).value.allDependencyHandles;
            && NoDuplicates(list)
            && (forall h :: h in list <==> AcceptedReach(s, p, purpose, requested, h))
            && (forall h :: h in list ==> h in ByHandle(s.sources))
            && (forall h :: h in requested ==> h in list)
  {
    AcceptedSelection(s, p, purpose, requested);
    EvaluationIsExact(s, p, purpose, requested);
    var g := RequestGraph(s, p, purpose);
    forall h | h in requested ensures ReachFrom(g, requested, h) { ReachSelf(g, h); }
  }

  /** The handles read are exactly the handles of the manifest. */
  lemma ReadsAreManifest(s: StorySnapshot, all: seq<SourceRead>, mandatory: seq<string>)
    requires ResolveError(s, all, mandatory).None?
    ensures forall h :: h in ReadHandles(all) <==> h in ByHandle(s.sources)
  {
    hide ByHandle, FindTarget;
    var manifest := ByHandle(s.sources);
    ReadErrorIff(manifest, all, |all|);
    ManifestKeys(s);
    forall h | h in manifest ensures h in ReadHandles(all) {
      var k :| 0 <= k < |s.sources| && ManifestHandles(s.sources)[k] == h;
    }
  }

  lemma PinsAreRead(s: StorySnapshot, all: seq<SourceRead>, t: string, pins: seq<string>)
    requires NoDuplicates(pins) && t !in pins && ResolveError(s, all, [t] + pins).None?
    ensures NoDuplicates([t] + pins) && forall h :: h in [t] + pins ==> h in ReadHandles(all)
  {
    hide ByHandle, FindTarget, ReadError;
    var part := [t] + pins;
    ReadsAreManifest(s, all, part);
    assert part[0] == t && forall k :: 0 < k < |part| ==> part[k] == pins[k - 1];
    forall h | h in part ensures h in ReadHandles(all) {
      var k :| 0 <= k < |part| && part[k] == h;
      assert part[k] in ByHandle(s.sources).Keys;
    }
  }

  /** Evaluating the pins never fails once the whole manifest was evaluated. */
  lemma PinsEvaluate(s: StorySnapshot, p: InformationPolicy, purpose: ContextPurpose, all: seq<SourceRead>,
                     pins: seq<string>)
    requires FindTarget(s.sources, s.target).Some? && Evaluate(s, p, purpose, ReadHandles(all)).Ok?
    requires var t := FindTarget(s.sources, s.target).value.handle;
             NoDuplicates(pins) && t !in pins && ResolveError(s, all, [t] + pins).None?
    ensures Evaluate(s, p, purpose, [FindTarget(s.sources, s.target).value.handle] + pins).Ok?
  {
    hide ByHandle, FindTarget, Evaluate, ResolveError, ReadHandles, NoDuplicates;
    var t := FindTarget(s.sources, s.target).value.handle;
    PinsAreRead(s, all, t, pins);
    SmallerSelectionEvaluates(s, p, purpose, ReadHandles(all), [t] + pins);
  }

  ghost predicate PlanInputs(s: StorySnapshot, all: seq<SourceRead>, pins: seq<string>) {
    FindTarget(s.sources, s.target).Some?
    && var t := FindTarget(s.sources, s.target).value.handle;
       NoDuplicates(pins) && t !in pins && ResolveError(s, all, [t] + pins).None?
  }

  function TargetHandle(s: StorySnapshot): string {
    match FindTarget(s.sources, s.target) case Some(d) => d.handle case None => ""
  }

  lemma SplitSucceedsIff(manifest: map<string, SourceDescriptor>, target: string, closure: seq<string>,
                         order: seq<string>, workshop: bool)
    ensures Split(manifest, target, closure, order, workshop).Ok?
       <==> forall h :: h in closure ==> h !in DirectoryOnlyHandles(manifest)
  {
    hide Kept, SetOf, DirectoryOnlyHandles;
    assert forall h :: h in closure <==> exists k :: 0 <= k < |closure| && closure[k] == h;
  }

  /** With inputs that pass and a manifest that evaluates, only the split can refuse. */
  lemma PlanIsSplit(s: StorySnapshot, p: InformationPolicy, purpose: ContextPurpose, all: seq<SourceRead>,
                    pins: seq<string>, workshop: bool)
    requires PlanInputs(s, all, pins) && Evaluate(s, p, purpose, ReadHandles(all)).Ok?
    ensures Evaluate(s, p, purpose, [TargetHandle(s)] + pins).Ok?
    ensures PlanOf(s, p, purpose, all, pins, workshop).Ok?
       <==> forall h :: h in Evaluate(s, p, purpose, [TargetHandle(s)] + pins).value.allDependencyHandles ==>
              h !in DirectoryOnlyHandles(ByHandle(s.sources))
  {
    hide Evaluate, ByHandle, FindTarget, StableOrder, Split, ResolveError, DirectoryOnlyHandles, PinError;
    var t := TargetHandle(s);
    PinErrorIff(t, pins, |pins|);
    assert pins[..|pins|] == pins;
    PinsEvaluate(s, p, purpose, all, pins);
    ListedIffReached(s, p, purpose, ReadHandles(all));
    ReadsAreManifest(s, all, [t] + pins);
    var full := Evaluate(s, p, purpose, ReadHandles(all)).value.allDependencyHandles;
    var closure := Evaluate(s, p, purpose, [t] + pins).value.allDependencyHandles;
    SplitSucceedsIff(ByHandle(s.sources), t, closure,
                     StableOrder(t, closure, ManifestHandles(s.sources), SetOf(full)), workshop);
  }

  lemma PlanNeeds(s: StorySnapshot, p: InformationPolicy, purpose: ContextPurpose, all: seq<SourceRead>,
                  pins: seq<string>, workshop: bool)
    requires PlanOf(s, p, purpose, all, pins, workshop).Ok?
    ensures PlanInputs(s, all, pins) && Evaluate(s, p, purpose, ReadHandles(all)).Ok?
  {
    hide Evaluate, ByHandle, FindTarget, StableOrder, Split, ResolveError, PinError, Within;
    PinErrorIff(FindTarget(s.sources, s.target).value.handle, pins, |pins|);
    assert pins[..|pins|] == pins;
  }

  /** A packet's sources can be planned exactly when the pins and reads are well formed,
      every source of the manifest may be used, and nothing pinned rests on a source
      without text: the second evaluation and the missing-read check never refuse. */
  lemma PlanSucceedsIff(s: StorySnapshot, p: InformationPolicy, purpose: ContextPurpose, all: seq<SourceRead>,
                        pins: seq<string>, workshop: bool)
    ensures PlanOf(s, p, purpose, all, pins, workshop).Ok?
       <==> && PlanInputs(s, all, pins) && Evaluate(s, p, purpose, ReadHandles(all)).Ok?
            && (forall h :: AcceptedReach(s, p, purpose, [TargetHandle(s)] + pins, h) ==>
                  h in ByHandle(s.sources) && ByHandle(s.sources)[h].coverage != DirectoryOnly)
  {
    hide Evaluate, AcceptedReach, ByHandle, PlanInputs, PlanOf, TargetHandle;
    if PlanInputs(s, all, pins) && Evaluate(s, p, purpose, ReadHandles(all)).Ok? {
      PlanIsSplit(s, p, purpose, all, pins, workshop);
      ListedIffReached(s, p, purpose, [TargetHandle(s)] + pins);
    } else if PlanOf(s, p, purpose, all, pins, workshop).Ok? {
      PlanNeeds(s, p, purpose, all, pins, workshop);
    }
  }

  /** The parts of a plan, without its evaluation. */
  ghost predicate Planned(s: StorySnapshot, p: InformationPolicy, purpose: ContextPurpose, pins: seq<string>,
                          workshop: bool, plan: SourcePlan) {
    var manifest, pinned := ByHandle(s.sources), SetOf(plan.closure) + {TargetHandle(s)};
    && (forall h :: h in plan.order <==> h in manifest) && NoRepeats(plan.order)
    && plan.order != [] && plan.order[0] == TargetHandle(s) && TargetHandle(s) in plan.closure
    && (forall h :: h in plan.closure <==> AcceptedReach(s, p, purpose, [TargetHandle(s)] + pins, h))
    && (forall h :: h in plan.closure ==> h !in DirectoryOnlyHandles(manifest) && h in manifest)
    && plan.mandatory == Kept(plan.order, pinned)
    && plan.optional == (if workshop then []
                         else Kept(plan.order, manifest.Keys - pinned - DirectoryOnlyHandles(manifest)))
    && plan.directory == Kept(plan.order, DirectoryOnlyHandles(manifest))
  }

  /** The evaluations and the order behind a plan. */
  lemma PlanUnfolds(s: StorySnapshot, p: InformationPolicy, purpose: ContextPurpose, all: seq<SourceRead>,
                    pins: seq<string>, workshop: bool)
    requires PlanOf(s, p, purpose, all, pins, workshop).Ok?
    ensures ResolveError(s, all, [TargetHandle(s)] + pins).None?
    ensures var full, pinned := Evaluate(s, p, purpose, ReadHandles(all)),
      Evaluate(s, p, purpose, [TargetHandle(s)] + pins);
            && full.Ok? && pinned.Ok?
            && var closure := pinned.value.allDependencyHandles;
               PlanOf(s, p, purpose, all, pins, workshop)
               == Split(ByHandle(s.sources), TargetHandle(s), closure,
                        StableOrder(TargetHandle(s), closure, ManifestHandles(s.sources),
                                    SetOf(full.value.allDependencyHandles)), workshop)
  {
    hide Evaluate, ByHandle, FindTarget, StableOrder, ResolveError, PinError, Split;
  }

  lemma SplitParts(manifest: map<string, SourceDescriptor>, target: string, closure: seq<string>, order: seq<string>,
                   workshop: bool)
    requires Split(manifest, target, closure, order, workshop).Ok?
    ensures forall h :: h in closure ==> h !in DirectoryOnlyHandles(manifest)
    ensures var plan, pinned := Split(manifest, target, closure, order, workshop).value, SetOf(closure) + {target};
            && plan.closure == closure && plan.order == order && plan.mandatory == Kept(order, pinned)
            && plan.optional == (if workshop then []
                                 else Kept(order, manifest.Keys - pinned - DirectoryOnlyHandles(manifest)))
            && plan.directory == Kept(order, DirectoryOnlyHandles(manifest))
  {
    hide Kept;
  }

  lemma PlanIsPlanned(s: StorySnapshot, p: InformationPolicy, purpose: ContextPurpose, all: seq<SourceRead>,
                      pins: seq<string>, workshop: bool)
    requires PlanOf(s, p, purpose, all, pins, workshop).Ok?
    ensures Planned(s, p, purpose, pins, workshop, PlanOf(s, p, purpose, all, pins, workshop).value)
  {
    hide Evaluate, AcceptedReach, ByHandle, FindTarget, StableOrder, Kept, ResolveError, PinError, PlanOf, Split,
      TargetHandle, ManifestHandles, ReadHandles, NoRepeats, NoDuplicates;
    var t := TargetHandle(s);
    PlanUnfolds(s, p, purpose, all, pins, workshop);
    var full := Evaluate(s, p, purpose, ReadHandles(all)).value.allDependencyHandles;
    var closure := Evaluate(s, p, purpose, [t] + pins).value.allDependencyHandles;
    var order := StableOrder(t, closure, ManifestHandles(s.sources), SetOf(full));
    SplitParts(ByHandle(s.sources), t, closure, order, workshop);
    ListedIffReached(s, p, purpose, ReadHandles(all));
    ListedIffReached(s, p, purpose, [t] + pins);
    ReadsAreManifest(s, all, [t] + pins);
    ManifestKeys(s);
    assert ([t] + pins)[0] == t;
    StableOrderIsExact(t, closure, ManifestHandles(s.sources), SetOf(full));
  }

  /** Every source of the manifest is exactly one of pinned evidence, optional, or named
      in the receipt as having no text (or, in a workshop request, as left out); the
      pinned ones are exactly the target, the pins and all they depend on. */
  lemma PlanPartitions(s: StorySnapshot, p: InformationPolicy, purpose: ContextPurpose, pins: seq<string>,
                       workshop: bool, plan: SourcePlan, h: string)
    requires Planned(s, p, purpose, pins, workshop, plan)
    ensures h in plan.mandatory <==> AcceptedReach(s, p, purpose, [TargetHandle(s)] + pins, h)
    ensures !(h in plan.mandatory && h in plan.directory) && !(h in plan.optional && h in plan.mandatory)
         && !(h in plan.optional && h in plan.directory)
    ensures h in ByHandle(s.sources) <==> h in plan.mandatory || h in plan.directory || h in plan.optional
                                          || (workshop && h in plan.order && h !in plan.mandatory
                                              && h !in plan.directory)
    ensures NoRepeats(plan.mandatory) && NoRepeats(plan.optional) && NoRepeats(plan.directory)
  {
    hide AcceptedReach, ByHandle, FindTarget, NoRepeats;
    KeptDistinct(plan.order, SetOf(plan.closure) + {TargetHandle(s)});
    KeptDistinct(plan.order,
                 ByHandle(s.sources).Keys - (SetOf(plan.closure)
                                             + {TargetHandle(s)}) - DirectoryOnlyHandles(ByHandle(s.sources)));
    KeptDistinct(plan.order, DirectoryOnlyHandles(ByHandle(s.sources)));
    EmptyDistinct();
  }

  lemma KeptDistinct(handles: seq<string>, keep: set<string>)
    requires NoRepeats(handles)
    ensures NoRepeats(Kept(handles, keep))
  {
  }

  lemma EmptyDistinct()
    ensures NoRepeats<string>([])
  {
  }

  // ----- The stage the block packer starts from -----

  function Whole(handles: seq<string>): (selected: seq<Packing.Selected>)
    ensures |selected| == |handles|
    ensures forall k :: 0 <= k < |handles| ==> selected[k] == Packing.Selected(handles[k], true, None)
  {
    seq(|handles|, k requires 0 <= k < |handles| => Packing.Selected(handles[k], true, None))
  }

  /** Pinned sources whole; optional ones unless a summary or a view stands for them. */
  predicate StageOf(plan: SourcePlan, represented: set<string>, stage: Packing.Stage) {
    && stage.mandatory == Whole(plan.mandatory)
    && stage.optional == Kept(plan.optional, SetOf(plan.optional) - represented)
  }

  /** The packer's assumption on its stage always holds. */
  lemma StageIsDistinct(s: StorySnapshot, p: InformationPolicy, purpose: ContextPurpose, pins: seq<string>,
                        workshop: bool, plan: SourcePlan, represented: set<string>, stage: Packing.Stage)
    requires Planned(s, p, purpose, pins, workshop, plan) && StageOf(plan, represented, stage)
    ensures Packing.Distinct(stage)
  {
    hide Planned;
    PlanPartitions(s, p, purpose, pins, workshop, plan, "");
    KeptDistinct(plan.optional, SetOf(plan.optional) - represented);
    forall i, j | 0 <= i < |stage.mandatory| && 0 <= j < |stage.optional|
      ensures stage.mandatory[i].handle != stage.optional[j]
    {
      assert stage.mandatory[i].handle == plan.mandatory[i] && stage.optional[j] in plan.optional;
      PlanPartitions(s, p, purpose, pins, workshop, plan, plan.mandatory[i]);
    }
  }

  /** Budget pressure never separates a pin from its evidence: wherever packing stops, the
      target, every pin and everything they depend on, directly or not, are in the packet
      whole, and no other source is there except by its first blocks. */
  lemma PinnedEvidenceSurvives(s: StorySnapshot, p: InformationPolicy, purpose: ContextPurpose, pins: seq<string>,
                               workshop: bool, plan: SourcePlan, represented: set<string>, stage: Packing.Stage,
                               build: Packing.Builder, available: nat, h: string)
    requires Planned(s, p, purpose, pins, workshop, plan) && StageOf(plan, represented, stage)
    requires Packing.PackAll(stage, build, available).StoppedAt?
    ensures var stop := Packing.PackAll(stage, build, available);
            && Packing.At(stage, stop.source, stop.blocks)
            && (AcceptedReach(s, p, purpose, [TargetHandle(s)] + pins, h)
                <==> Packing.Selected(h, true, None) in Packing.SelectionAt(stage, stop.source, stop.blocks))
  {
    hide Planned, AcceptedReach, Packing.SelectionAt, Packing.PackFrom, Packing.BuildAt, Packing.Distinct;
    var stop := Packing.PackAll(stage, build, available);
    Packing.PackStopsLater(stage, build, available, 0, 0);
    StageIsDistinct(s, p, purpose, pins, workshop, plan, represented, stage);
    Packing.SelectionIsBlockPrefixes(stage, stop.source, stop.blocks, Packing.Selected(h, true, None));
    PlanPartitions(s, p, purpose, pins, workshop, plan, h);
    if h in plan.mandatory {
      var k :| 0 <= k < |plan.mandatory| && plan.mandatory[k] == h;
      assert stage.mandatory[k] == Packing.Selected(h, true, None);
    }
    if Packing.Selected(h, true, None) in stage.mandatory {
      var k :| 0 <= k < |stage.mandatory| && stage.mandatory[k] == Packing.Selected(h, true, None);
      assert plan.mandatory[k] == h;
    }
  }
}
