/** Lines 124-130 and 158-161 of `main`: every listing entry's record
    collected into the dict `allPlugins`, keyed by the entry's `name`, and
    the run as a whole, which flattens that dict into the list written to
    `plugins.json` and reports the new and the updated names. */
module Index {
  import opened Wrappers
  import opened Json
  import opened Dicts
  import opened Fetch
  import opened Changes

  /** What line 129 stores for a fetch: the record, or `None` for a skipped
      entry. */
  function FetchValue(f: Outcome): (v: JValue)
    ensures v == JNull <==> f.NotFetched?
    ensures f.Fetched? ==> v.JObj? && v.fields == f.record
  {
    match f
    case Fetched(record) => JObj(record)
    case NotFetched(_) => JNull
  }

  /** The key of line 129, `plugin["name"]`: a KeyError when it is missing
      and a TypeError when Python cannot hash it. */
  function KeyOf(plugin: Object): (r: Result<JValue, PyError>)
    ensures r.Ok? <==> HasKey(plugin, NameField) && Hashable(Get(plugin, NameField).value)
    ensures r.Ok? ==> Get(plugin, NameField) == Some(r.value)
    ensures !HasKey(plugin, NameField) ==> r == Err(KeyError(NameField))
  {
    match Get(plugin, NameField)
    case None => Err(KeyError(NameField))
    case Some(name) => if Hashable(name) then Ok(name) else Err(TypeError("unhashable type"))
  }

  /** One iteration of lines 128-129: the entry and what fetching it gave.
      The fetch runs first; the key is read only once it has returned. */
  type Step = (Object, Result<Outcome, PyError>)

  /** The assignment one step performs, or the exception it raises. */
  function StepPair(step: Step): (r: Result<(JValue, JValue), PyError>)
    ensures step.1.Err? ==> r == Err(step.1.error)
  {
    match step.1
    case Err(e) => Err(e)
    case Ok(fetched) =>
      match KeyOf(step.0)
      case Err(e) => Err(e)
      case Ok(name) => Ok((name, FetchValue(fetched)))
  }

  /** `allPlugins` after the steps, or the first exception. Line 130 reads
      the loop variable `plugin`, which an empty listing never binds. */
  function Collection(steps: seq<Step>): (r: Result<Dict<JValue, JValue>, PyError>)
    ensures r.Ok? ==> Valid(r.value)
  {
    match MapResult(steps, StepPair)
    case Err(e) => Err(e)
    case Ok(pairs) =>
      FromPairsShape(pairs);
      if |steps| == 0 then Err(NameError("plugin")) else Ok(FromPairs(pairs))
  }

  /** The steps are those of the listing's first entries, each fetched with
      its own downloads. */
  ghost predicate StepsOf(listing: seq<Object>, net: seq<Payloads>, steps: seq<Step>)
    requires |net| == |listing|
  {
    && |steps| <= |listing|
    && forall j :: 0 <= j < |steps| ==> steps[j].0 == listing[j] && FetchOutcome(listing[j], net[j], steps[j].1)
  }

  lemma StepsOfSnoc(listing: seq<Object>, net: seq<Payloads>, steps: seq<Step>, step: Step)
    requires |net| == |listing| && StepsOf(listing, net, steps) && |steps| < |listing|
    requires step.0 == listing[|steps|] && FetchOutcome(listing[|steps|], net[|steps|], step.1)
    ensures StepsOf(listing, net, steps + [step])
  {
    var i := |steps|;
    forall j | 0 <= j < i + 1
      ensures (steps + [step])[j].0 == listing[j] && FetchOutcome(listing[j], net[j], (steps + [step])[j].1)
    {
      if j < i {
        assert (steps + [step])[j] == steps[j];
      }
    }
  }

  /** Every step before the last one of a loop that had not yet raised
      succeeded. */
  lemma PrefixSucceeds(steps: seq<Step>, step: Step)
    requires MapResult(steps, StepPair).Ok?
    ensures forall j :: 0 <= j < |steps + [step]| - 1 ==> StepPair((steps + [step])[j]).Ok?
  {
    assert forall j :: 0 <= j < |steps| ==> (steps + [step])[j] == steps[j];
  }

  /** Lines 124-130. `net[i]` holds the downloads for `listing[i]`; `steps`
      records the entries the loop went through, which is all of them unless
      one raised. */
  method Collect(listing: seq<Object>, net: seq<Payloads>)
    returns (r: Result<Dict<JValue, JValue>, PyError>, ghost steps: seq<Step>)
    requires |net| == |listing|
    ensures StepsOf(listing, net, steps)
    ensures forall j :: 0 <= j < |steps| - 1 ==> StepPair(steps[j]).Ok?
    ensures |steps| < |listing| ==> MapResult(steps, StepPair).Err? && r.Err?
    ensures r == Collection(steps)
  {
    var allPlugins: Dict<JValue, JValue> := Empty();
    steps := [];
    for i := 0 to |listing|
      invariant |steps| == i
      invariant StepsOf(listing, net, steps)
      invariant MapResult(steps, StepPair).Ok?
      invariant allPlugins == FromPairs(MapResult(steps, StepPair).value)
    {
      var jsonData := GetPluginJson(listing[i], net[i]);
      var before := steps;
      steps := steps + [(listing[i], jsonData)];
      StepsOfSnoc(listing, net, before, (listing[i], jsonData));
      MapResultStep(steps, i, StepPair);
      assert steps[..i] == before && steps[..i + 1] == steps;
      PrefixSucceeds(before, (listing[i], jsonData));
      if jsonData.Err? {
        return Err(jsonData.error), steps;
      }
      var name := KeyOf(listing[i]);
      if name.Err? {
        return Err(name.error), steps;
      }
      FromPairsSnoc(MapResult(before, StepPair).value, (name.value, FetchValue(jsonData.value)));
      allPlugins := Assign(allPlugins, name.value, FetchValue(jsonData.value));
    }
    if |listing| == 0 {
      return Err(NameError("plugin")), steps;
    }
    return Ok(allPlugins), steps;
  }

  /** The names the steps assign, in order. */
  function StepNames(steps: seq<Step>): (names: seq<JValue>)
    requires MapResult(steps, StepPair).Ok?
    ensures |names| == |steps|
    ensures forall j :: 0 <= j < |steps| ==> KeyOf(steps[j].0) == Ok(names[j])
  {
    PairKeys(MapResult(steps, StepPair).value)
  }

  /** The value the last step with name `k` stored: its record or `None`. */
  function LastStored(steps: seq<Step>, k: JValue): Option<JValue>
    requires MapResult(steps, StepPair).Ok?
  {
    LastValue(MapResult(steps, StepPair).value, k)
  }

  /** The collected dict holds each listing name once, in the order of its
      first occurrence, with the value the last entry of that name stored. */
  lemma CollectionShape(steps: seq<Step>)
    requires Collection(steps).Ok?
    ensures var all := Collection(steps).value;
      && Valid(all)
      && Keys(all) == Dedup(StepNames(steps))
      && (forall k :: Get(all, k) == LastStored(steps, k))
      && (forall j :: 0 <= j < |steps| ==> StepNames(steps)[j] in Keys(all))
  {
    var pairs := MapResult(steps, StepPair).value;
    FromPairsShape(pairs);
    DedupElements(PairKeys(pairs));
  }

  /** The list of lines 159-161 has one element per distinct name, in order
      of first occurrence, and each is the value the name's last entry
      stored. */
  lemma IndexListShape(steps: seq<Step>)
    requires Collection(steps).Ok?
    ensures var all := Collection(steps).value;
      var names := Dedup(StepNames(steps));
      && Valid(all)
      && |Values(all)| == |names|
      && Distinct(names)
      && forall i :: 0 <= i < |names| ==> LastStored(steps, names[i]) == Some(Values(all)[i])
  {
    CollectionShape(steps);
    DedupElements(StepNames(steps));
  }

  /** What a run reports: the list written to `plugins.json`, and the new and
      the updated names. */
  datatype Report = Report(index: seq<JValue>, newNames: seq<JValue>, updatedNames: seq<JValue>)

  /** Lines 124-161: collect, read the previous index `oldFile` (`None` when
      there is none), classify, and flatten. The progress bars and the
      printed summary are output only. */
  method GenerateIndex(listing: seq<Object>, net: seq<Payloads>, oldFile: Option<seq<JValue>>)
    returns (r: Result<Report, PyError>, ghost steps: seq<Step>)
    requires |net| == |listing|
    ensures StepsOf(listing, net, steps)
    ensures forall j :: 0 <= j < |steps| - 1 ==> StepPair(steps[j]).Ok?
    ensures |steps| < |listing| ==> MapResult(steps, StepPair).Err?
    ensures Collection(steps).Err? ==> r == Err(Collection(steps).error)
    ensures Collection(steps).Ok? ==> |steps| == |listing| && Valid(Collection(steps).value)
    ensures Collection(steps).Ok? && OldMap(oldFile).Err? ==> r == Err(OldMap(oldFile).error)
    ensures Collection(steps).Ok? && OldMap(oldFile).Ok? ==>
      var all := Collection(steps).value;
      match Classification(Items(all), OldMap(oldFile).value)
      case Err(e) => r == Err(e)
      case Ok((newNames, updatedNames)) => r == Ok(Report(Values(all), newNames, updatedNames))
  {
    var all;
    all, steps := Collect(listing, net);
    if all.Err? {
      return Err(all.error), steps;
    }
    CollectionShape(steps);
    var oldMap := BuildOldMap(oldFile);
    if oldMap.Err? {
      return Err(oldMap.error), steps;
    }
    var lists := Classify(all.value, oldMap.value);
    if lists.Err? {
      return Err(lists.error), steps;
    }
    var index := ValuesList(all.value);
    return Ok(Report(index, lists.value.0, lists.value.1)), steps;
  }

  /** A record as line 136 reads it on the next run: an object whose
      `lastUpdated` is a number and whose `projectData.full_name` is `name`. */
  predicate RereadAs(v: JValue, name: JValue) {
    && Subscript(v, LastUpdated).Ok? && IsInt(Subscript(v, LastUpdated).value)
    && Subscript(v, ProjectData).Ok?
    && Subscript(Subscript(v, ProjectData).value, FullNameField) == Ok(name)
  }

  /** The previous run's pairs, when every record is read back as its own
      key: each element gives its key and its `lastUpdated`. */
  lemma RereadPairs(all: Dict<JValue, JValue>)
    requires Valid(all)
    requires forall i :: 0 <= i < |Keys(all)| ==> Hashable(Keys(all)[i]) && RereadAs(Values(all)[i], Keys(all)[i])
    ensures MapResult(Values(all), OldEntry).Ok?
    ensures forall i :: 0 <= i < |Keys(all)| ==>
      MapResult(Values(all), OldEntry).value[i] == (Keys(all)[i], Subscript(Values(all)[i], LastUpdated).value)
  {
    var file := Values(all);
    assert forall i :: 0 <= i < |file| ==>
      OldEntry(file[i]) == Ok((Keys(all)[i], Subscript(file[i], LastUpdated).value));
  }

  /** The old map read back from such an index holds each record's own
      `lastUpdated` under its key. */
  lemma RereadOldMap(all: Dict<JValue, JValue>)
    requires Valid(all)
    requires forall i :: 0 <= i < |Keys(all)| ==> Hashable(Keys(all)[i]) && RereadAs(Values(all)[i], Keys(all)[i])
    ensures OldMap(Some(Values(all))).Ok?
    ensures forall i :: 0 <= i < |Keys(all)| ==>
      Get(OldMap(Some(Values(all))).value, Keys(all)[i]) == Some(Subscript(Values(all)[i], LastUpdated).value)
  {
    RereadPairs(all);
    var pairs := MapResult(Values(all), OldEntry).value;
    assert PairKeys(pairs) == Keys(all);
    FromPairsShape(pairs);
    forall i | 0 <= i < |Keys(all)|
      ensures Get(FromPairs(pairs), Keys(all)[i]) == Some(Subscript(Values(all)[i], LastUpdated).value)
    {
      LastValueOfDistinct(pairs, i);
    }
  }

  /** Running again on an index whose every record lists its own key as
      `full_name` reports nothing new and nothing updated. */
  lemma {:induction false} RerunReportsNothing(all: Dict<JValue, JValue>)
    requires Valid(all)
    requires forall i :: 0 <= i < |Keys(all)| ==> Hashable(Keys(all)[i]) && RereadAs(Values(all)[i], Keys(all)[i])
    ensures OldMap(Some(Values(all))).Ok?
    ensures Classification(Items(all), OldMap(Some(Values(all))).value) == Ok(([], []))
  {
    RereadOldMap(all);
    var oldMap := OldMap(Some(Values(all))).value;
    var items := Items(all);
    forall i | 0 <= i < |items|
      ensures StatusOf(items[i].0, items[i].1, oldMap) == Ok(Unchanged)
    {
      assert items[i] == (Keys(all)[i], Values(all)[i]);
    }
    var statuses := MapResult(items, ItemStatus(oldMap)).value;
    NoneWith(items, statuses, New);
    NoneWith(items, statuses, Updated);
  }

  lemma NoneWith(items: seq<(JValue, JValue)>, statuses: seq<Status>, s: Status)
    requires |statuses| == |items|
    requires forall i :: 0 <= i < |items| ==> statuses[i] != s
    ensures NamesWith(items, statuses, s) == []
  {
  }

  /** A skipped entry stores `None`; when no later entry has the same name,
      the `None` reaches `plugins.json`, which the next run's line 136
      cannot read: that run raises before it classifies anything. */
  lemma FailedFetchBreaksNextRun(steps: seq<Step>, j: nat)
    requires Collection(steps).Ok? && j < |steps|
    requires steps[j].1.Ok? && steps[j].1.value.NotFetched?
    requires forall l :: j < l < |steps| ==> StepNames(steps)[l] != StepNames(steps)[j]
    ensures OldMap(Some(Values(Collection(steps).value))).Err?
  {
    var all := Collection(steps).value;
    var pairs := MapResult(steps, StepPair).value;
    CollectionShape(steps);
    var k := StepNames(steps)[j];
    LastValueOfLast(pairs, j);
    assert Get(all, k) == Some(JNull);
    var i :| 0 <= i < |Keys(all)| && Keys(all)[i] == k;
    OldMapRejectsNull(Values(all), i);
  }

  /** An entry on another site is skipped whatever its downloads. */
  lemma OtherSiteIsSkipped(name: string, n: Payloads, r: Result<Outcome, PyError>)
    requires FetchOutcome(OtherSiteEntry(name), n, r)
    ensures r == Ok(NotFetched(UnsupportedSite))
  {
    assert HasKey(OtherSiteEntry(name), SiteField);
  }

  /** A run over the first-run listing of `Changes.AsWrittenLosesAnEntry`
      skips both entries, so none of its steps raises, and `Collect`, which
      stops early only on an exception, goes through both. */
  lemma FirstRunSteps(net: seq<Payloads>, steps: seq<Step>)
    requires |net| == 2 && StepsOf([OtherSiteEntry("a/b"), OtherSiteEntry("c/d")], net, steps)
    ensures MapResult(steps, StepPair).Ok?
  {
    if |steps| > 0 {
      OtherSiteIsSkipped("a/b", net[0], steps[0].1);
    }
    if |steps| > 1 {
      OtherSiteIsSkipped("c/d", net[1], steps[1].1);
    }
  }

  /** Whatever the downloads, the two steps collect the dict whose items the
      example classifies: `None` under `a/b`, then `None` under `c/d`. */
  lemma FirstRunCollects(net: seq<Payloads>, steps: seq<Step>)
    requires |net| == 2 && |steps| == 2
    requires StepsOf([OtherSiteEntry("a/b"), OtherSiteEntry("c/d")], net, steps)
    ensures Collection(steps).Ok?
    ensures Items(Collection(steps).value) == [(JStr("a/b"), JNull), (JStr("c/d"), JNull)]
  {
    OtherSiteIsSkipped("a/b", net[0], steps[0].1);
    OtherSiteIsSkipped("c/d", net[1], steps[1].1);
    var pairs := [(JStr("a/b"), JNull), (JStr("c/d"), JNull)];
    assert MapResult(steps, StepPair).value == pairs;
    assert FromPairs(pairs) == Dict([JStr("a/b"), JStr("c/d")], map[JStr("a/b") := JNull, JStr("c/d") := JNull]);
  }
}
