/** What the indexer derives from a listing entry's `"owner/repo"` name and
    from the project's `full_name`: the split into owner and repository, the
    two GitHub URLs and the `path` identifier. */
module Names {
  import opened Wrappers
  import opened Json

  /** The address every project and author URL starts with. */
  const GitHubUrl: string := "https://github.com/"

  /** The number of occurrences of `c` in `s`. */
  function Count(s: string, c: char): nat {
    if |s| == 0 then 0 else (if s[0] == c then 1 else 0) + Count(s[1..], c)
  }

  /** Python's `s.split(c)`: the pieces between occurrences of `c`, the empty
      ones included, so that `"".split(c)` is `[""]`. */
  function Split(s: string, c: char): (parts: seq<string>)
    ensures |parts| == Count(s, c) + 1
    ensures forall i :: 0 <= i < |parts| ==> c !in parts[i]
  {
    if |s| == 0 then [[]]
    else
      var rest := Split(s[1..], c);
      if s[0] == c then [[]] + rest
      else [[s[0]] + rest[0]] + rest[1..]
  }

  /** Python's `c.join(parts)`. */
  function Join(parts: seq<string>, c: char): string
    requires |parts| > 0
  {
    if |parts| == 1 then parts[0] else parts[0] + [c] + Join(parts[1..], c)
  }

  /** Splitting and joining again gives the string back. */
  lemma {:induction false} JoinSplit(s: string, c: char)
    ensures Join(Split(s, c), c) == s
  {
    if |s| > 0 {
      JoinSplit(s[1..], c);
      var rest := Split(s[1..], c);
      if s[0] != c {
        if |rest| == 1 {
          assert Split(s, c) == [[s[0]] + rest[0]];
        } else {
          assert ([[s[0]] + rest[0]] + rest[1..])[1..] == rest[1..];
        }
      }
    }
  }

  /** `userName, projectName = name.split("/")`: the unpacking succeeds only
      when there are exactly two pieces, that is exactly one slash. */
  function SplitName(name: string): (r: Result<(string, string), PyError>)
    ensures r.Ok? <==> Count(name, '/') == 1
    ensures r.Ok? ==> r.value.0 + "/" + r.value.1 == name
    ensures r.Ok? ==> '/' !in r.value.0 && '/' !in r.value.1
    ensures r.Err? ==> r.error.ValueError?
  {
    var parts := Split(name, '/');
    if |parts| == 2 then
      JoinSplit(name, '/');
      assert Join(parts, '/') == parts[0] + "/" + parts[1];
      Ok((parts[0], parts[1]))
    else Err(ValueError("wrong number of values to unpack (expected 2)"))
  }

  /** The project's page: the GitHub address followed by the whole name. */
  function ProjectUrl(name: string): string {
    GitHubUrl + name
  }

  /** The author's page: the GitHub address followed by the owner. */
  function AuthorUrl(owner: string): string {
    GitHubUrl + owner
  }

  /** For a well-formed name the author's page is the project's page with
      `"/repo"` cut off, and the project's page names the repository last. */
  lemma AuthorUrlIsProjectUrlPrefix(name: string)
    requires SplitName(name).Ok?
    ensures ProjectUrl(name) == AuthorUrl(SplitName(name).value.0) + "/" + SplitName(name).value.1
  {
    var owner, repo := SplitName(name).value.0, SplitName(name).value.1;
    calc {
      ProjectUrl(name);
      GitHubUrl + (owner + "/" + repo);
      (GitHubUrl + owner) + "/" + repo;
    }
  }

  predicate IsLower(c: char) {
    'a' <= c <= 'z'
  }

  /** `re.sub('[^a-z]', '', s)`: the lower-case ASCII letters of `s`, in order. */
  function KeepLower(s: string): (r: string)
    ensures forall i :: 0 <= i < |r| ==> IsLower(r[i])
    ensures |r| <= |s|
  {
    if |s| == 0 then [] else (if IsLower(s[0]) then [s[0]] else []) + KeepLower(s[1..])
  }

  /** Filtering distributes over concatenation; with the one-character case
      below, this pins down that `KeepLower` keeps exactly the lower-case
      letters and keeps them in their original order. */
  lemma {:induction false} KeepLowerConcat(a: string, b: string)
    ensures KeepLower(a + b) == KeepLower(a) + KeepLower(b)
  {
    if |a| == 0 {
      assert a + b == b;
    } else {
      assert (a + b)[0] == a[0] && (a + b)[1..] == a[1..] + b;
      KeepLowerConcat(a[1..], b);
    }
  }

  lemma KeepLowerChar(c: char)
    ensures KeepLower([c]) == if IsLower(c) then [c] else []
  {
    assert [c][1..] == [];
  }

  /** A string made only of lower-case letters is its own `path`. */
  lemma {:induction false} KeepLowerFixes(s: string)
    requires forall i :: 0 <= i < |s| ==> IsLower(s[i])
    ensures KeepLower(s) == s
  {
    if |s| > 0 {
      KeepLowerFixes(s[1..]);
    }
  }

  /** Deriving `path` from a `path` changes nothing. */
  lemma {:induction false} KeepLowerIdempotent(s: string)
    ensures KeepLower(KeepLower(s)) == KeepLower(s)
  {
    KeepLowerFixes(KeepLower(s));
  }

  /** The positions of the lower-case letters of `s`, in increasing order. */
  function LowerPositions(s: string): (ps: seq<nat>)
    ensures forall j :: 0 <= j < |ps| ==> ps[j] < |s| && IsLower(s[ps[j]])
    ensures forall j, k :: 0 <= j < k < |ps| ==> ps[j] < ps[k]
    ensures forall i :: 0 <= i < |s| && IsLower(s[i]) ==> i in ps
  {
    if |s| == 0 then []
    else
      var init := LowerPositions(s[..|s| - 1]);
      assert forall i :: 0 <= i < |s| - 1 ==> s[..|s| - 1][i] == s[i];
      init + (if IsLower(s[|s| - 1]) then [|s| - 1] else [])
  }

  /** `path` is `full_name` with exactly its lower-case letters kept, in
      their original order: its j-th character is the j-th lower-case letter
      of `s`. */
  lemma {:induction false} KeepLowerKeepsInOrder(s: string)
    ensures |KeepLower(s)| == |LowerPositions(s)|
    ensures forall j :: 0 <= j < |KeepLower(s)| ==> KeepLower(s)[j] == s[LowerPositions(s)[j]]
  {
    if |s| > 0 {
      var init, c := s[..|s| - 1], s[|s| - 1];
      assert s == init + [c];
      KeepLowerKeepsInOrder(init);
      KeepLowerConcat(init, [c]);
      KeepLowerChar(c);
    }
  }
}
