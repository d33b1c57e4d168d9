/** Lines 132-156: the map of the previous run's timestamps, and the split of
    this run's entries into new and updated ones. */
module Changes {
  import opened Wrappers
  import opened Json
  import opened Dicts
  import opened Fetch

  /** The previous run's index as the old map reads it: each element of
      `plugins.json` gives the pair `(projectData["full_name"], lastUpdated)`.
      Python evaluates the right-hand side of line 136 first, so a missing
      `lastUpdated` is reported before a missing `projectData`. */
  function OldEntry(plugin: JValue): (r: Result<(JValue, JValue), PyError>)
    ensures r.Ok? <==>
      && Subscript(plugin, LastUpdated).Ok?
      && Subscript(plugin, ProjectData).Ok?
      && Subscript(Subscript(plugin, ProjectData).value, FullNameField).Ok?
      && Hashable(Subscript(Subscript(plugin, ProjectData).value, FullNameField).value)
    ensures r.Ok? ==>
      && r.value.1 == Subscript(plugin, LastUpdated).value
      && r.value.0 == Subscript(Subscript(plugin, ProjectData).value, FullNameField).value
    ensures Subscript(plugin, LastUpdated).Err? ==> r == Err(Subscript(plugin, LastUpdated).error)
    ensures plugin == JNull ==> r.Err? && r.error.TypeError?
  {
    match Subscript(plugin, LastUpdated)
    case Err(e) => Err(e)
    case Ok(lastUpdated) =>
      match Subscript(plugin, ProjectData)
      case Err(e) => Err(e)
      case Ok(project) =>
        match Subscript(project, FullNameField)
        case Err(e) => Err(e)
        case Ok(fullName) =>
          if Hashable(fullName) then Ok((fullName, lastUpdated))
          else Err(TypeError("unhashable type"))
  }

  /** The old map: empty when there is no `plugins.json`, otherwise the pairs
      of its elements assigned in order, so that the last element with a
      given `full_name` supplies its timestamp. */
  function OldMap(oldFile: Option<seq<JValue>>): Result<Dict<JValue, JValue>, PyError> {
    if oldFile.None? then Ok(Empty())
    else
      match MapResult(oldFile.value, OldEntry)
      case Err(e) => Err(e)
      case Ok(pairs) => Ok(FromPairs(pairs))
  }

  /** Lines 132-136. */
  method BuildOldMap(oldFile: Option<seq<JValue>>) returns (r: Result<Dict<JValue, JValue>, PyError>)
    ensures r == OldMap(oldFile)
  {
    if oldFile.None? {
      return Ok(Empty());
    }
    var file := oldFile.value;
    var oldMap: Dict<JValue, JValue> := Empty();
    for i := 0 to |file|
      invariant MapResult(file[..i], OldEntry).Ok?
      invariant oldMap == FromPairs(MapResult(file[..i], OldEntry).value)
    {
      MapResultStep(file, i, OldEntry);
      ghost var pairs := MapResult(file[..i], OldEntry).value;
      var entry := OldEntry(file[i]);
      if entry.Err? {
        MapResultStops(file, i + 1, OldEntry);
        return Err(entry.error);
      }
      oldMap := Assign(oldMap, entry.value.0, entry.value.1);
      FromPairsSnoc(pairs, entry.value);
    }
    assert file[..|file|] == file;
    return Ok(oldMap);
  }

  /** The old map records, for each `full_name`, the `lastUpdated` of the last
      element that has it, and it holds each `full_name` once. */
  lemma OldMapKeepsLast(file: seq<JValue>)
    requires OldMap(Some(file)).Ok?
    ensures var pairs := MapResult(file, OldEntry).value;
      && Valid(OldMap(Some(file)).value)
      && Keys(OldMap(Some(file)).value) == Dedup(PairKeys(pairs))
      && forall k :: Get(OldMap(Some(file)).value, k) == LastValue(pairs, k)
  {
    FromPairsShape(MapResult(file, OldEntry).value);
  }

  /** An element that is `null`, which is what a skipped entry of the
      previous run left in `plugins.json`, makes the old map fail. */
  lemma OldMapRejectsNull(file: seq<JValue>, i: nat)
    requires i < |file| && file[i] == JNull
    ensures OldMap(Some(file)).Err?
  {
    assert OldEntry(file[i]).Err?;
  }

  datatype Status = New | Updated | Unchanged

  /** Lines 142-150 for one entry. The first test settles a name absent from
      the old map; otherwise the fetched record's `lastUpdated` is compared
      with the oldMap one, which raises when the record is `null`. */
  function StatusOf(name: JValue, data: JValue, oldMap: Dict<JValue, JValue>): (r: Result<Status, PyError>)
    ensures !HasKey(oldMap, name) ==> r == Ok(New)
    ensures HasKey(oldMap, name) ==>
      (r.Ok? <==> Subscript(data, LastUpdated).Ok? && IsInt(Subscript(data, LastUpdated).value) &&
                  IsInt(Get(oldMap, name).value))
    ensures r == Ok(Updated) <==>
      && HasKey(oldMap, name) && Subscript(data, LastUpdated).Ok?
      && IsInt(Subscript(data, LastUpdated).value) && IsInt(Get(oldMap, name).value)
      && IntValue(Subscript(data, LastUpdated).value) > IntValue(Get(oldMap, name).value)
    ensures r == Ok(Unchanged) <==>
      && HasKey(oldMap, name) && Subscript(data, LastUpdated).Ok?
      && IsInt(Subscript(data, LastUpdated).value) && IsInt(Get(oldMap, name).value)
      && IntValue(Subscript(data, LastUpdated).value) <= IntValue(Get(oldMap, name).value)
    ensures HasKey(oldMap, name) && data == JNull ==> r.Err? && r.error.TypeError?
  {
    if !HasKey(oldMap, name) then Ok(New)
    else
      match Subscript(data, LastUpdated)
      case Err(e) => Err(e)
      case Ok(lastUpdated) =>
        match Greater(lastUpdated, Get(oldMap, name).value)
        case Err(e) => Err(e)
        case Ok(greater) => Ok(if greater then Updated else Unchanged)
  }

  function ItemStatus(oldMap: Dict<JValue, JValue>): ((JValue, JValue)) -> Result<Status, PyError> {
    (item: (JValue, JValue)) => StatusOf(item.0, item.1, oldMap)
  }

  /** The names of the items whose status is `s`, in order. */
  function NamesWith(items: seq<(JValue, JValue)>, statuses: seq<Status>, s: Status): (names: seq<JValue>)
    requires |statuses| == |items|
    ensures forall x :: x in names <==> exists i :: 0 <= i < |items| && items[i].0 == x && statuses[i] == s
    ensures |names| <= |items|
  {
    if |items| == 0 then []
    else
      var n := |items| - 1;
      var init := NamesWith(items[..n], statuses[..n], s);
      assert forall i :: 0 <= i < n ==> items[..n][i] == items[i] && statuses[..n][i] == statuses[i];
      if statuses[n] == s then init + [items[n].0] else init
  }

  /** The new and the updated names, in the dict's order, or the first error. */
  function Classification(items: seq<(JValue, JValue)>, oldMap: Dict<JValue, JValue>):
    Result<(seq<JValue>, seq<JValue>), PyError>
  {
    match MapResult(items, ItemStatus(oldMap))
    case Err(e) => Err(e)
    case Ok(statuses) => Ok((NamesWith(items, statuses, New), NamesWith(items, statuses, Updated)))
  }

  /** The lists after one more entry. */
  lemma ClassificationStep(items: seq<(JValue, JValue)>, i: nat, oldMap: Dict<JValue, JValue>)
    requires i < |items|
    requires MapResult(items[..i], ItemStatus(oldMap)).Ok?
    requires StatusOf(items[i].0, items[i].1, oldMap).Ok?
    ensures MapResult(items[..i + 1], ItemStatus(oldMap)).Ok?
    ensures var before := MapResult(items[..i], ItemStatus(oldMap)).value;
      var after := MapResult(items[..i + 1], ItemStatus(oldMap)).value;
      var s := StatusOf(items[i].0, items[i].1, oldMap).value;
      && NamesWith(items[..i + 1], after, New) ==
           NamesWith(items[..i], before, New) + (if s == New then [items[i].0] else [])
      && NamesWith(items[..i + 1], after, Updated) ==
           NamesWith(items[..i], before, Updated) + (if s == Updated then [items[i].0] else [])
  {
    MapResultStep(items, i, ItemStatus(oldMap));
    var after := MapResult(items[..i + 1], ItemStatus(oldMap)).value;
    assert items[..i + 1][..i] == items[..i];
    assert after[..i] == MapResult(items[..i], ItemStatus(oldMap)).value;
  }

  /** An entry whose status raises ends the classification with its error. */
  lemma ClassificationStops(items: seq<(JValue, JValue)>, i: nat, oldMap: Dict<JValue, JValue>)
    requires i < |items|
    requires MapResult(items[..i], ItemStatus(oldMap)).Ok?
    requires StatusOf(items[i].0, items[i].1, oldMap).Err?
    ensures Classification(items, oldMap) == Err(StatusOf(items[i].0, items[i].1, oldMap).error)
  {
    MapResultStep(items, i, ItemStatus(oldMap));
    MapResultStops(items, i + 1, ItemStatus(oldMap));
  }

  /** Lines 138-156, collecting the name of each entry classified. The inner
      test of line 147 repeats the outer one and cannot succeed. */
  method Classify(all: Dict<JValue, JValue>, oldMap: Dict<JValue, JValue>)
    returns (r: Result<(seq<JValue>, seq<JValue>), PyError>)
    requires Valid(all)
    ensures r == Classification(Items(all), oldMap)
  {
    var items := Items(all);
    var newNames, updatedNames := [], [];
    for i := 0 to |items|
      invariant MapResult(items[..i], ItemStatus(oldMap)).Ok?
      invariant newNames == NamesWith(items[..i], MapResult(items[..i], ItemStatus(oldMap)).value, New)
      invariant updatedNames == NamesWith(items[..i], MapResult(items[..i], ItemStatus(oldMap)).value, Updated)
    {
      var (name, pluginData) := items[i];
      var isNew, isUpdated := false, false;
      if !HasKey(oldMap, name) {
        isNew := true;
      } else {
        if !HasKey(oldMap, name) {
          assert false;
        } else {
          var lastUpdated := Subscript(pluginData, LastUpdated);
          if lastUpdated.Err? {
            ClassificationStops(items, i, oldMap);
            return Err(lastUpdated.error);
          }
          var greater := Greater(lastUpdated.value, Get(oldMap, name).value);
          if greater.Err? {
            ClassificationStops(items, i, oldMap);
            return Err(greater.error);
          }
          isUpdated := greater.value;
        }
      }
      assert StatusOf(name, pluginData, oldMap) ==
        Ok(if isNew then New else if isUpdated then Updated else Unchanged);
      ClassificationStep(items, i, oldMap);
      if isUpdated || isNew {
        if isNew {
          newNames := newNames + [name];
        } else if isUpdated {
          updatedNames := updatedNames + [name];
        }
      }
    }
    assert items[..|items|] == items;
    return Ok((newNames, updatedNames));
  }

  /** Classification is a partition by status: a name is new exactly when
      the old map lacks it, updated exactly when its timestamp is strictly
      greater than the old one, and reported in neither list otherwise. */
  lemma ClassificationMeaning(all: Dict<JValue, JValue>, oldMap: Dict<JValue, JValue>)
    requires Valid(all) && Classification(Items(all), oldMap).Ok?
    ensures var (newNames, updatedNames) := Classification(Items(all), oldMap).value;
      forall x ::
        && (x in newNames <==> x in Keys(all) && !HasKey(oldMap, x))
        && (x in updatedNames <==> x in Keys(all) && StatusOf(x, Get(all, x).value, oldMap) == Ok(Updated))
        && (x in Keys(all) && x !in newNames && x !in updatedNames <==>
              x in Keys(all) && StatusOf(x, Get(all, x).value, oldMap) == Ok(Unchanged))
  {
    var items := Items(all);
    var statuses := MapResult(items, ItemStatus(oldMap)).value;
    assert forall i :: 0 <= i < |items| ==> Ok(statuses[i]) == StatusOf(items[i].0, items[i].1, oldMap);
    forall x | x in Keys(all)
      ensures exists i :: 0 <= i < |items| && items[i].0 == x
    {
      var i :| 0 <= i < |Keys(all)| && Keys(all)[i] == x;
      assert items[i].0 == x;
    }
  }

  /** No name is reported both as new and as updated. */
  lemma NewAndUpdatedAreDisjoint(all: Dict<JValue, JValue>, oldMap: Dict<JValue, JValue>)
    requires Valid(all) && Classification(Items(all), oldMap).Ok?
    ensures var (newNames, updatedNames) := Classification(Items(all), oldMap).value;
      forall x :: !(x in newNames && x in updatedNames)
  {
    ClassificationMeaning(all, oldMap);
  }

  /** The value of the loop variable `plugin` at lines 154 and 156: the last
      element of `plugins.json` when that file was read and is not empty
      (the loop of line 135 rebinds it), otherwise the last listing entry
      (from the loop of line 126). */
  function StalePlugin(listing: seq<Object>, oldFile: Option<seq<JValue>>): JValue
    requires |listing| > 0
  {
    if oldFile.Some? && |oldFile.value| > 0 then oldFile.value[|oldFile.value| - 1]
    else JObj(listing[|listing| - 1])
  }

  /** What lines 154 and 156 append as written: `stale` once for every entry
      whose status is `s`. */
  function Appended(statuses: seq<Status>, s: Status, stale: JValue): seq<JValue> {
    if |statuses| == 0 then []
    else
      var init := Appended(statuses[..|statuses| - 1], s, stale);
      if statuses[|statuses| - 1] == s then init + [stale] else init
  }

  /** Lines 138-156 as written: the lists hold the stale `plugin`. */
  function ClassificationAsWritten(items: seq<(JValue, JValue)>, oldMap: Dict<JValue, JValue>, stale: JValue):
    Result<(seq<JValue>, seq<JValue>), PyError>
  {
    match MapResult(items, ItemStatus(oldMap))
    case Err(e) => Err(e)
    case Ok(statuses) => Ok((Appended(statuses, New, stale), Appended(statuses, Updated, stale)))
  }

  lemma {:induction false} AppendedCopies(items: seq<(JValue, JValue)>, statuses: seq<Status>, s: Status, stale: JValue)
    requires |statuses| == |items|
    ensures |Appended(statuses, s, stale)| == |NamesWith(items, statuses, s)|
    ensures forall x :: x in Appended(statuses, s, stale) ==> x == stale
  {
    if |statuses| > 0 {
      var n := |statuses| - 1;
      AppendedCopies(items[..n], statuses[..n], s, stale);
    }
  }

  /** As written, the two lists have the right lengths but every element of
      them is the same stale value. */
  lemma AsWrittenReportsOnlyTheStalePlugin(items: seq<(JValue, JValue)>, oldMap: Dict<JValue, JValue>, stale: JValue)
    requires Classification(items, oldMap).Ok?
    ensures ClassificationAsWritten(items, oldMap, stale).Ok?
    ensures var (newList, updatedList) := ClassificationAsWritten(items, oldMap, stale).value;
      var (newNames, updatedNames) := Classification(items, oldMap).value;
      && |newList| == |newNames| && |updatedList| == |updatedNames|
      && (forall x :: x in newList ==> x == stale)
      && (forall x :: x in updatedList ==> x == stale)
  {
    var statuses := MapResult(items, ItemStatus(oldMap)).value;
    AppendedCopies(items, statuses, New, stale);
    AppendedCopies(items, statuses, Updated, stale);
  }

  /** The first-run example below: with an empty old map both entries are new. */
  lemma FirstRunStatuses(items: seq<(JValue, JValue)>)
    requires items == [(JStr("a/b"), JNull), (JStr("c/d"), JNull)]
    ensures MapResult(items, ItemStatus(Empty())) == Ok([New, New])
  {
    var f := ItemStatus(Empty());
    assert f(items[0]) == Ok(New) && f(items[1]) == Ok(New);
    MapResultStep(items, 0, f);
    MapResultStep(items, 1, f);
    assert items[..0] == [] && items[..2] == items;
    var none: seq<Status> := [];
    assert MapResult(items[..0], f) == Ok(none) && none + [New] == [New];
    assert MapResult(items[..1], f) == Ok([New]);
    assert [New] + [New] == [New, New];
  }

  /** A listing entry for a project on another site: the fetch skips it
      (line 31) and line 129 stores `None` under its name. */
  function OtherSiteEntry(name: string): Object {
    Dict([NameField, SiteField], map[NameField := JStr(name), SiteField := JStr("gitlab.com")])
  }

  /** A first run over two entries, `a/b` and `c/d`, both on another site:
      as written the new list reports the `c/d` entry twice and never `a/b`. */
  lemma AsWrittenLosesAnEntry()
    ensures var cd := OtherSiteEntry("c/d");
      var items := [(JStr("a/b"), JNull), (JStr("c/d"), JNull)];
      ClassificationAsWritten(items, Empty(), StalePlugin([OtherSiteEntry("a/b"), cd], None)) ==
        Ok(([JObj(cd), JObj(cd)], []))
  {
    var items := [(JStr("a/b"), JNull), (JStr("c/d"), JNull)];
    FirstRunStatuses(items);
    var stale := JObj(OtherSiteEntry("c/d"));
    var one, two := [New], [New, New];
    var none: seq<JValue> := [];
    assert two[..1] == one && one[..0] == [];
    assert Appended(one, New, stale) == [stale];
    assert Appended(two, New, stale) == [stale, stale];
    assert Appended(one, Updated, stale) == none;
    assert Appended(two, Updated, stale) == none;
  }

  /** The same first run, classified per entry: both names are reported new. */
  lemma FirstRunReportsBothEntries()
    ensures var items := [(JStr("a/b"), JNull), (JStr("c/d"), JNull)];
      Classification(items, Empty()) == Ok(([JStr("a/b"), JStr("c/d")], []))
  {
    var items := [(JStr("a/b"), JNull), (JStr("c/d"), JNull)];
    FirstRunStatuses(items);
    var one, two := [New], [New, New];
    var none: seq<JValue> := [];
    assert two[..1] == one && one[..0] == [] && items[..1][..0] == [];
    assert items[..1] == [(JStr("a/b"), JNull)];
    assert NamesWith(items[..1], one, New) == [JStr("a/b")];
    assert NamesWith(items, two, New) == [JStr("a/b"), JStr("c/d")];
    assert NamesWith(items[..1], one, Updated) == none;
    assert NamesWith(items, two, Updated) == none;
  }
}
