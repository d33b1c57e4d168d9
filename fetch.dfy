/** `getPluginJson`: the fetch of one listing entry. The four documents the
    program downloads for an entry are inputs here; a download that fails
    with an HTTP error is `None`. */
module Fetch {
  import opened Wrappers
  import opened Json
  import opened Dicts
  import opened Names
  import opened Tags
  import opened Manifest

  /** What the four downloads returned: the release's publication time as a
      Unix timestamp, the project's tag list, the project's repository record
      and the `plugin` object of its manifest. */
  datatype Payloads = Payloads(
    release: Option<int>,
    tags: Option<seq<Tag>>,
    project: Option<JValue>,
    manifest: Option<Object>)

  /** The download that failed. */
  datatype Stage = ReleaseStage | TagListStage | ProjectStage | ManifestStage

  /** Why an entry was skipped (the function returned `None`). */
  datatype Skip = UnsupportedSite | HttpFailure(stage: Stage) | TagNotFound

  /** The value `getPluginJson` returns. */
  datatype Outcome = Fetched(record: Object) | NotFetched(why: Skip)

  /** The listing entry's keys that the fetch reads. */
  const SiteField: string := "site"
  const NameField: string := "name"
  const TagField: string := "tag"

  /** The fields added to the manifest for internal use, in the order they
      are added. */
  const LastUpdated: string := "lastUpdated"
  const ProjectUrlField: string := "projectUrl"
  const ProjectData: string := "projectData"
  const AuthorUrlField: string := "authorUrl"
  const PackageUrl: string := "packageUrl"
  const PathField: string := "path"
  const CommitField: string := "commit"
  const FullNameField: string := "full_name"

  const InternalFields: seq<string> :=
    [LastUpdated, ProjectUrlField, ProjectData, AuthorUrlField, PackageUrl, PathField, CommitField]

  /** A field the patch of lines 96-103 may change. */
  predicate IsPatched(k: string) {
    k == Api || k == MinVersion || k == Platforms || k == Install
  }

  lemma InternalFieldNames()
    ensures Distinct(InternalFields)
    ensures forall k :: k in InternalFields ==> !IsPatched(k)
    ensures Api !in InternalFields && MinVersion !in InternalFields
    ensures Platforms !in InternalFields && Install !in InternalFields
  {
  }

  /** What the fetch takes from a listing entry. */
  datatype Request = Request(name: string, owner: string, repo: string, tag: JValue)

  /** Lines 31-45, up to the first download: an entry with a `site` is
      skipped; otherwise `name` must be an `"owner/repo"` string and `tag`
      must be present. */
  function ReadEntry(plugin: Object): (r: Result<Option<Request>, PyError>)
    ensures r == Ok(None) <==> HasKey(plugin, SiteField)
    ensures r.Ok? && r.value.Some? ==>
      var q := r.value.value;
      && Get(plugin, NameField) == Some(JStr(q.name))
      && q.name == q.owner + "/" + q.repo && '/' !in q.owner && '/' !in q.repo
      && Get(plugin, TagField) == Some(q.tag)
    ensures r.Err? <==>
      !HasKey(plugin, SiteField) &&
      (|| !HasKey(plugin, NameField)
       || !Get(plugin, NameField).value.JStr?
       || Count(Get(plugin, NameField).value.s, '/') != 1
       || !HasKey(plugin, TagField))
    ensures r.Err? && !HasKey(plugin, NameField) ==> r.error == KeyError(NameField)
    ensures r.Err? && HasKey(plugin, NameField) && !Get(plugin, NameField).value.JStr? ==>
      r.error.AttributeError?
    ensures r.Err? && HasKey(plugin, NameField) && Get(plugin, NameField).value.JStr? ==>
      if Count(Get(plugin, NameField).value.s, '/') != 1 then r.error.ValueError?
      else r.error == KeyError(TagField)
  {
    if HasKey(plugin, SiteField) then Ok(None)
    else
      match Get(plugin, NameField)
      case None => Err(KeyError(NameField))
      case Some(name) =>
        if !name.JStr? then Err(AttributeError("split"))
        else
          match SplitName(name.s)
          case Err(e) => Err(e)
          case Ok((owner, repo)) =>
            match Get(plugin, TagField)
            case None => Err(KeyError(TagField))
            case Some(tag) => Ok(Some(Request(name.s, owner, repo, tag)))
  }

  /** `projectData["full_name"]` passed to `re.sub`: the repository record must
      be an object whose `full_name` is a string. */
  function FullName(project: JValue): (r: Result<string, PyError>)
    ensures r.Ok? <==>
      project.JObj? && HasKey(project.fields, FullNameField) && Get(project.fields, FullNameField).value.JStr?
    ensures r.Ok? ==> Get(project.fields, FullNameField) == Some(JStr(r.value))
    ensures project.JObj? && !HasKey(project.fields, FullNameField) ==> r == Err(KeyError(FullNameField))
  {
    match Subscript(project, FullNameField)
    case Err(e) => Err(e)
    case Ok(v) => if v.JStr? then Ok(v.s) else Err(TypeError("expected string or bytes-like object"))
  }

  /** The tag the request names resolves to a commit: some tag has that name
      and the first such tag's `sha` is not null. */
  predicate TagResolves(tags: seq<Tag>, want: JValue) {
    FirstMatch(tags, want).Some? && tags[FirstMatch(tags, want).value].sha != JNull
  }

  /** The first stage at which the fetch gives up, if any, in the order of
      lines 44-82. */
  function Skipped(q: Request, net: Payloads): (r: Option<Skip>)
    ensures r.None? <==>
      && net.release.Some? && net.tags.Some? && TagResolves(net.tags.value, q.tag)
      && net.project.Some? && net.manifest.Some?
    ensures net.release.None? ==> r == Some(HttpFailure(ReleaseStage))
    ensures net.release.Some? && net.tags.None? ==> r == Some(HttpFailure(TagListStage))
    ensures net.release.Some? && net.tags.Some? && TagResolves(net.tags.value, q.tag) && net.project.None? ==>
      r == Some(HttpFailure(ProjectStage))
    ensures
      && net.release.Some? && net.tags.Some? && TagResolves(net.tags.value, q.tag)
      && net.project.Some? && net.manifest.None?
      ==> r == Some(HttpFailure(ManifestStage))
    ensures r == Some(TagNotFound) <==>
      net.release.Some? && net.tags.Some? && !TagResolves(net.tags.value, q.tag)
  {
    if net.release.None? then Some(HttpFailure(ReleaseStage))
    else if net.tags.None? then Some(HttpFailure(TagListStage))
    else if !TagResolves(net.tags.value, q.tag) then Some(TagNotFound)
    else if net.project.None? then Some(HttpFailure(ProjectStage))
    else if net.manifest.None? then Some(HttpFailure(ManifestStage))
    else None
  }

  /** Everything needed for the record to be built. */
  predicate Succeeds(q: Request, net: Payloads) {
    && Skipped(q, net).None?
    && FullName(net.project.value).Ok?
    && HasKey(net.manifest.value, Api)
  }

  /** `rec` is the record built for request `q`: the manifest's fields, the
      seven internal ones set from the downloads, and the patch applied. */
  ghost predicate Enriched(q: Request, net: Payloads, rec: Object)
    requires Succeeds(q, net)
  {
    var tag := net.tags.value[FirstMatch(net.tags.value, q.tag).value];
    var manifest := net.manifest.value;
    && Get(rec, LastUpdated) == Some(JInt(net.release.value))
    && Get(rec, ProjectUrlField) == Some(JStr(ProjectUrl(q.name)))
    && Get(rec, ProjectData) == Some(net.project.value)
    && Get(rec, AuthorUrlField) == Some(JStr(AuthorUrl(q.owner)))
    && Get(rec, PackageUrl) == Some(tag.zipballUrl)
    && Get(rec, PathField) == Some(JStr(KeepLower(FullName(net.project.value).value)))
    && Get(rec, CommitField) == Some(tag.sha)
    && Get(rec, Api) == Some(WrappedApi(Get(manifest, Api).value))
    && Get(rec, MinVersion) == Some(VersionOrZero(Get(manifest, MinVersion)))
    && Get(rec, Platforms) == Some(OrDefault(Get(manifest, Platforms), JList([])))
    && Get(rec, Install) == Some(OrDefault(Get(manifest, Install), JObj(Empty())))
    && (forall k :: k !in InternalFields && !IsPatched(k) ==> Get(rec, k) == Get(manifest, k))
    && Keys(manifest) <= Keys(rec)
  }

  /** Seven assignments in a row to seven different keys `ks`, with values
      `vs`. Stated for any keys, so that the proofs do not depend on the
      spelling of the field names. */
  predicate SevenAssignments(d0: Object, d1: Object, d2: Object, d3: Object, d4: Object,
                             d5: Object, d6: Object, d7: Object, ks: seq<string>, vs: seq<JValue>) {
    && |ks| == 7 && |vs| == 7 && Distinct(ks)
    && d1 == Assign(d0, ks[0], vs[0]) && d2 == Assign(d1, ks[1], vs[1])
    && d3 == Assign(d2, ks[2], vs[2]) && d4 == Assign(d3, ks[3], vs[3])
    && d5 == Assign(d4, ks[4], vs[4]) && d6 == Assign(d5, ks[5], vs[5])
    && d7 == Assign(d6, ks[6], vs[6])
  }

  /** Each key holds the value assigned to it, and no other key changes. */
  lemma SevenAssignmentsValues(d0: Object, d1: Object, d2: Object, d3: Object, d4: Object,
                         d5: Object, d6: Object, d7: Object, ks: seq<string>, vs: seq<JValue>)
    requires SevenAssignments(d0, d1, d2, d3, d4, d5, d6, d7, ks, vs)
    ensures forall i :: 0 <= i < 7 ==> Get(d7, ks[i]) == Some(vs[i])
    ensures forall k :: k !in ks ==> Get(d7, k) == Get(d0, k)
  {
  }

  /** The keys already present keep their positions, and the dict stays valid. */
  lemma SevenAssignmentsKeys(d0: Object, d1: Object, d2: Object, d3: Object, d4: Object,
                         d5: Object, d6: Object, d7: Object, ks: seq<string>, vs: seq<JValue>)
    requires SevenAssignments(d0, d1, d2, d3, d4, d5, d6, d7, ks, vs)
    ensures Keys(d0) <= Keys(d7)
    ensures Valid(d0) ==> Valid(d7)
  {
    AssignMeaning(d0, ks[0], vs[0]);
    AssignMeaning(d1, ks[1], vs[1]);
    AssignMeaning(d2, ks[2], vs[2]);
    AssignMeaning(d3, ks[3], vs[3]);
    AssignMeaning(d4, ks[4], vs[4]);
    AssignMeaning(d5, ks[5], vs[5]);
    AssignMeaning(d6, ks[6], vs[6]);
  }

  /** Lines 85-91: the seven internal fields, set in this order. Reading
      `projectData["full_name"]` at line 90 can raise, after the first five
      have been set. */
  method AddInternalFields(data: Object, q: Request, published: int, project: JValue,
                           zipUrl: JValue, commit: JValue)
    returns (r: Result<Object, PyError>)
    ensures r.Err? <==> FullName(project).Err?
    ensures r.Err? ==> r.error == FullName(project).error
    ensures r.Ok? ==>
      && Get(r.value, LastUpdated) == Some(JInt(published))
      && Get(r.value, ProjectUrlField) == Some(JStr(ProjectUrl(q.name)))
      && Get(r.value, ProjectData) == Some(project)
      && Get(r.value, AuthorUrlField) == Some(JStr(AuthorUrl(q.owner)))
      && Get(r.value, PackageUrl) == Some(zipUrl)
      && Get(r.value, PathField) == Some(JStr(KeepLower(FullName(project).value)))
      && Get(r.value, CommitField) == Some(commit)
    ensures r.Ok? ==> forall k :: k !in InternalFields ==> Get(r.value, k) == Get(data, k)
    ensures r.Ok? ==> Keys(data) <= Keys(r.value)
    ensures r.Ok? && Valid(data) ==> Valid(r.value)
  {
    var d := data;
    d := Assign(d, LastUpdated, JInt(published));
    ghost var d1 := d;
    d := Assign(d, ProjectUrlField, JStr(ProjectUrl(q.name)));
    ghost var d2 := d;
    d := Assign(d, ProjectData, project);
    ghost var d3 := d;
    d := Assign(d, AuthorUrlField, JStr(AuthorUrl(q.owner)));
    ghost var d4 := d;
    d := Assign(d, PackageUrl, zipUrl);
    ghost var d5 := d;
    var fullName := FullName(project);
    if fullName.Err? {
      return Err(fullName.error);
    }
    d := Assign(d, PathField, JStr(KeepLower(fullName.value)));
    ghost var d6 := d;
    d := Assign(d, CommitField, commit);
    InternalFieldNames();
    ghost var vs := [JInt(published), JStr(ProjectUrl(q.name)), project, JStr(AuthorUrl(q.owner)), zipUrl,
                     JStr(KeepLower(fullName.value)), commit];
    assert SevenAssignments(data, d1, d2, d3, d4, d5, d6, d, InternalFields, vs);
    SevenAssignmentsValues(data, d1, d2, d3, d4, d5, d6, d, InternalFields, vs);
    SevenAssignmentsKeys(data, d1, d2, d3, d4, d5, d6, d, InternalFields, vs);
    return Ok(d);
  }

  /** The internal fields followed by the patch give the enriched record. */
  lemma PatchAfterInternalFields(q: Request, net: Payloads, data: Object, rec: Object)
    requires Succeeds(q, net)
    requires
      var tag := net.tags.value[FirstMatch(net.tags.value, q.tag).value];
      && Get(data, LastUpdated) == Some(JInt(net.release.value))
      && Get(data, ProjectUrlField) == Some(JStr(ProjectUrl(q.name)))
      && Get(data, ProjectData) == Some(net.project.value)
      && Get(data, AuthorUrlField) == Some(JStr(AuthorUrl(q.owner)))
      && Get(data, PackageUrl) == Some(tag.zipballUrl)
      && Get(data, PathField) == Some(JStr(KeepLower(FullName(net.project.value).value)))
      && Get(data, CommitField) == Some(tag.sha)
    requires forall k :: k !in InternalFields ==> Get(data, k) == Get(net.manifest.value, k)
    requires Keys(net.manifest.value) <= Keys(data)
    requires HasKey(data, Api) && NormalizedFrom(data, rec)
    ensures Enriched(q, net, rec)
  {
    InternalFieldNames();
    assert forall k :: k in InternalFields ==> Get(rec, k) == Get(data, k);
  }

  /** The outcome `r` of fetching listing entry `plugin` with downloads
      `net`: the entry's own errors first, then the first download that
      failed or the missing tag, then the errors of lines 90 and 96, and
      otherwise the enriched and normalised record. */
  ghost predicate FetchOutcome(plugin: Object, net: Payloads, r: Result<Outcome, PyError>) {
    && (ReadEntry(plugin).Err? ==> r == Err(ReadEntry(plugin).error))
    && (ReadEntry(plugin) == Ok(None) ==> r == Ok(NotFetched(UnsupportedSite)))
    && (ReadEntry(plugin).Ok? && ReadEntry(plugin).value.Some? ==>
          var q := ReadEntry(plugin).value.value;
          && (Skipped(q, net).Some? ==> r == Ok(NotFetched(Skipped(q, net).value)))
          && (Skipped(q, net).None? && FullName(net.project.value).Err? ==>
                r == Err(FullName(net.project.value).error))
          && (Skipped(q, net).None? && FullName(net.project.value).Ok? && !HasKey(net.manifest.value, Api) ==>
                r == Err(KeyError(Api)))
          && (Succeeds(q, net) ==> r.Ok? && r.value.Fetched? && Enriched(q, net, r.value.record)))
    && (r.Ok? && r.value.Fetched? && Valid(net.manifest.value) ==> Valid(r.value.record))
    && (r.Ok? && r.value.Fetched? ==> IsNormalized(r.value.record))
  }

  /** Lines 30-104. */
  method GetPluginJson(plugin: Object, net: Payloads) returns (r: Result<Outcome, PyError>)
    ensures FetchOutcome(plugin, net, r)
  {
    var entry := ReadEntry(plugin);
    if entry.Err? {
      return Err(entry.error);
    }
    if entry.value.None? {
      return Ok(NotFetched(UnsupportedSite));
    }
    var q := entry.value.value;
    if net.release.None? {
      return Ok(NotFetched(HttpFailure(ReleaseStage)));
    }
    if net.tags.None? {
      return Ok(NotFetched(HttpFailure(TagListStage)));
    }
    var commit, zipUrl := FindTag(net.tags.value, q.tag);
    if commit == JNull {
      return Ok(NotFetched(TagNotFound));
    }
    if net.project.None? {
      return Ok(NotFetched(HttpFailure(ProjectStage)));
    }
    if net.manifest.None? {
      return Ok(NotFetched(HttpFailure(ManifestStage)));
    }
    var data := AddInternalFields(net.manifest.value, q, net.release.value, net.project.value, zipUrl, commit);
    if data.Err? {
      return Err(data.error);
    }
    InternalFieldNames();
    var patched := Normalize(data.value);
    if patched.Err? {
      return Err(patched.error);
    }
    PatchAfterInternalFields(q, net, data.value, patched.value);
    return Ok(Fetched(patched.value));
  }
}
