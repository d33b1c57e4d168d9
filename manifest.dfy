/** The patch `getPluginJson` applies to the manifest's `plugin` object
    before returning it: the optional and variant fields are brought to one
    shape. */
module Manifest {
  import opened Wrappers
  import opened Json
  import opened Dicts

  const Api: string := "api"
  const MinVersion: string := "minimumBinaryNinjaVersion"
  const Platforms: string := "platforms"
  const Install: string := "installinstructions"

  lemma DistinctFieldNames()
    ensures Api != MinVersion && Api != Platforms && Api != Install
    ensures MinVersion != Platforms && MinVersion != Install && Platforms != Install
  {
  }

  /** `api` after the patch: a string is wrapped into a one-element list,
      anything else is kept as it is. */
  function WrappedApi(v: JValue): (r: JValue)
    ensures v.JStr? ==> r == JList([v])
    ensures !v.JStr? ==> r == v
  {
    if v.JStr? then JList([v]) else v
  }

  /** `minimumBinaryNinjaVersion` after the patch: kept when it is an int
      (a bool included), `0` when it is missing or of another type. */
  function VersionOrZero(v: Option<JValue>): (r: JValue)
    ensures IsInt(r)
    ensures v.Some? && IsInt(v.value) ==> r == v.value
    ensures !(v.Some? && IsInt(v.value)) ==> r == JInt(0)
  {
    if v.Some? && IsInt(v.value) then v.value else JInt(0)
  }

  /** A field that is added with a default only when it is missing. */
  function OrDefault(v: Option<JValue>, default: JValue): JValue {
    if v.Some? then v.value else default
  }

  /** The keys among `m`, `p`, `i` that `d` lacks, in that order. */
  function MissingKeys(d: Object, m: string, p: string, i: string): seq<string> {
    (if HasKey(d, m) then [] else [m]) +
    (if HasKey(d, p) then [] else [p]) +
    (if HasKey(d, i) then [] else [i])
  }

  /** The keys the patch appends, in the order it appends them. */
  function AddedKeys(d: Object): seq<string> {
    MissingKeys(d, MinVersion, Platforms, Install)
  }

  /** A record the patch leaves as it is, with the four field names as
      parameters (`a` the api field, `m` the version, `p` the platforms, `i`
      the install instructions), so that proofs about it do not depend on
      their spelling. */
  predicate HasShape(d: Object, a: string, m: string, p: string, i: string) {
    && HasKey(d, a) && !Get(d, a).value.JStr?
    && HasKey(d, m) && IsInt(Get(d, m).value)
    && HasKey(d, p)
    && HasKey(d, i)
  }

  /** `n` is `d` after the patch: the four fields as described above, every
      other field unchanged, the missing ones appended at the end in the
      order `m`, `p`, `i`. */
  ghost predicate PatchedFrom(d: Object, n: Object, a: string, m: string, p: string, i: string)
    requires HasKey(d, a)
  {
    && Get(n, a) == Some(WrappedApi(Get(d, a).value))
    && Get(n, m) == Some(VersionOrZero(Get(d, m)))
    && Get(n, p) == Some(OrDefault(Get(d, p), JList([])))
    && Get(n, i) == Some(OrDefault(Get(d, i), JObj(Empty())))
    && (forall k :: k != a && k != m && k != p && k != i ==> Get(n, k) == Get(d, k))
    && Keys(n) == Keys(d) + MissingKeys(d, m, p, i)
  }

  predicate IsNormalized(d: Object) {
    HasShape(d, Api, MinVersion, Platforms, Install)
  }

  ghost predicate NormalizedFrom(d: Object, n: Object)
    requires HasKey(d, Api)
  {
    PatchedFrom(d, n, Api, MinVersion, Platforms, Install)
  }

  /** `d1` to `d4` are the dict after each of the four steps of the patch,
      for four different field names of which `a` is present. */
  predicate PatchChain(d0: Object, d1: Object, d2: Object, d3: Object, d4: Object,
                  a: string, m: string, p: string, i: string)
  {
    && a != m && a != p && a != i && m != p && m != i && p != i
    && HasKey(d0, a)
    && d1 == (if Get(d0, a).value.JStr? then Assign(d0, a, JList([Get(d0, a).value])) else d0)
    && d2 == (if Get(d1, m).None? || !IsInt(Get(d1, m).value) then Assign(d1, m, JInt(0)) else d1)
    && d3 == (if !HasKey(d2, p) then Assign(d2, p, JList([])) else d2)
    && d4 == (if !HasKey(d3, i) then Assign(d3, i, JObj(Empty())) else d3)
  }

  /** One step of the patch: `k` is assigned when `c` holds, and `c` holds
      when `k` is missing. */
  lemma StepKeys(d: Object, d': Object, k: string, v: JValue, c: bool)
    requires d' == if c then Assign(d, k, v) else d
    requires c || HasKey(d, k)
    ensures Keys(d') == Keys(d) + (if HasKey(d, k) then [] else [k])
    ensures forall k' :: k' != k ==> Get(d', k') == Get(d, k')
  {
  }

  /** The patch appends the missing keys, in order. */
  lemma PatchKeys(d0: Object, d1: Object, d2: Object, d3: Object, d4: Object,
                  a: string, m: string, p: string, i: string)
    requires PatchChain(d0, d1, d2, d3, d4, a, m, p, i)
    ensures Keys(d4) == Keys(d0) + MissingKeys(d0, m, p, i)
  {
    StepKeys(d0, d1, a, JList([Get(d0, a).value]), Get(d0, a).value.JStr?);
    StepKeys(d1, d2, m, JInt(0), Get(d1, m).None? || !IsInt(Get(d1, m).value));
    StepKeys(d2, d3, p, JList([]), !HasKey(d2, p));
    StepKeys(d3, d4, i, JObj(Empty()), !HasKey(d3, i));
    var x: seq<string> := if HasKey(d0, m) then [] else [m];
    var y: seq<string> := if HasKey(d0, p) then [] else [p];
    var z: seq<string> := if HasKey(d0, i) then [] else [i];
    AppendAssoc(Keys(d0), x, y, z);
  }

  lemma AppendAssoc(s: seq<string>, x: seq<string>, y: seq<string>, z: seq<string>)
    ensures s + x + y + z == s + (x + y + z)
  {
  }

  /** The patch sets the four fields as described and changes nothing else. */
  lemma PatchValues(d0: Object, d1: Object, d2: Object, d3: Object, d4: Object,
                  a: string, m: string, p: string, i: string)
    requires PatchChain(d0, d1, d2, d3, d4, a, m, p, i)
    ensures PatchedFrom(d0, d4, a, m, p, i)
  {
    PatchKeys(d0, d1, d2, d3, d4, a, m, p, i);
    StepKeys(d0, d1, a, JList([Get(d0, a).value]), Get(d0, a).value.JStr?);
    StepKeys(d1, d2, m, JInt(0), Get(d1, m).None? || !IsInt(Get(d1, m).value));
    StepKeys(d2, d3, p, JList([]), !HasKey(d2, p));
    StepKeys(d3, d4, i, JObj(Empty()), !HasKey(d3, i));
  }

  /** After the patch the record has the normalised shape. */
  lemma PatchShape(d0: Object, d1: Object, d2: Object, d3: Object, d4: Object,
                   a: string, m: string, p: string, i: string)
    requires PatchChain(d0, d1, d2, d3, d4, a, m, p, i)
    ensures HasShape(d4, a, m, p, i)
  {
  }

  /** The patch leaves a record of the normalised shape as it is. */
  lemma PatchIdentity(d0: Object, d1: Object, d2: Object, d3: Object, d4: Object,
                      a: string, m: string, p: string, i: string)
    requires PatchChain(d0, d1, d2, d3, d4, a, m, p, i)
    requires HasShape(d0, a, m, p, i)
    ensures d4 == d0
  {
  }

  /** The patch keeps a dict valid. */
  lemma PatchValid(d0: Object, d1: Object, d2: Object, d3: Object, d4: Object,
                  a: string, m: string, p: string, i: string)
    requires PatchChain(d0, d1, d2, d3, d4, a, m, p, i)
    requires Valid(d0)
    ensures Valid(d4)
  {
    AssignMeaning(d0, a, JList([Get(d0, a).value]));
    AssignMeaning(d1, m, JInt(0));
    AssignMeaning(d2, p, JList([]));
    AssignMeaning(d3, i, JObj(Empty()));
  }

  /** Lines 96-103. `data["api"]` raises KeyError when the manifest has no
      `api`; otherwise each field is patched in turn. */
  method Normalize(data: Object) returns (r: Result<Object, PyError>)
    ensures r.Err? <==> !HasKey(data, Api)
    ensures r.Err? ==> r.error == KeyError(Api)
    ensures r.Ok? ==> NormalizedFrom(data, r.value) && IsNormalized(r.value)
    ensures r.Ok? && Valid(data) ==> Valid(r.value)
    ensures IsNormalized(data) ==> r == Ok(data)
  {
    DistinctFieldNames();
    var api := Get(data, Api);
    if api.None? {
      return Err(KeyError(Api));
    }
    var d := data;
    if api.value.JStr? {
      d := Assign(d, Api, JList([api.value]));
    }
    ghost var d1 := d;
    var version := Get(d, MinVersion);
    if version.None? || !IsInt(version.value) {
      d := Assign(d, MinVersion, JInt(0));
    }
    ghost var d2 := d;
    if !HasKey(d, Platforms) {
      d := Assign(d, Platforms, JList([]));
    }
    ghost var d3 := d;
    if !HasKey(d, Install) {
      d := Assign(d, Install, JObj(Empty()));
    }
    PatchValues(data, d1, d2, d3, d, Api, MinVersion, Platforms, Install);
    PatchShape(data, d1, d2, d3, d, Api, MinVersion, Platforms, Install);
    if IsNormalized(data) {
      PatchIdentity(data, d1, d2, d3, d, Api, MinVersion, Platforms, Install);
    }
    if Valid(data) {
      PatchValid(data, d1, d2, d3, d, Api, MinVersion, Platforms, Install);
    }
    return Ok(d);
  }
}
