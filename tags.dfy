/** Resolving the requested tag to a commit: a linear scan of the project's
    tag list that stops at the first tag with the requested name. */
module Tags {
  import opened Wrappers
  import opened Json

  /** One element of the tag list: its `name`, its `commit.sha` and its
      `zipball_url`, each as the JSON value the host sent. */
  datatype Tag = Tag(name: JValue, sha: JValue, zipballUrl: JValue)

  /** The position of the first tag whose name equals `want`, if any. */
  function FirstMatch(tags: seq<Tag>, want: JValue): (r: Option<nat>)
    ensures r.None? <==> forall j :: 0 <= j < |tags| ==> tags[j].name != want
    ensures r.Some? ==> r.value < |tags| && tags[r.value].name == want
    ensures r.Some? ==> forall j :: 0 <= j < r.value ==> tags[j].name != want
  {
    if |tags| == 0 then None
    else if tags[0].name == want then Some(0)
    else
      var rest := FirstMatch(tags[1..], want);
      assert forall j :: 1 <= j < |tags| ==> tags[j] == tags[1..][j - 1];
      if rest.None? then None else Some(rest.value + 1)
  }

  /** The `for tag in tagData: ... break` loop. `commit` and `zipUrl` start as
      `None` and take the values of the first matching tag. */
  method FindTag(tags: seq<Tag>, want: JValue) returns (commit: JValue, zipUrl: JValue)
    ensures FirstMatch(tags, want).None? ==> commit == JNull && zipUrl == JNull
    ensures FirstMatch(tags, want).Some? ==>
      var i := FirstMatch(tags, want).value;
      commit == tags[i].sha && zipUrl == tags[i].zipballUrl
  {
    commit, zipUrl := JNull, JNull;
    var i := 0;
    while i < |tags|
      invariant 0 <= i <= |tags|
      invariant forall j :: 0 <= j < i ==> tags[j].name != want
      invariant commit == JNull && zipUrl == JNull
    {
      if tags[i].name == want {
        commit := tags[i].sha;
        zipUrl := tags[i].zipballUrl;
        return;
      }
      i := i + 1;
    }
  }
}
