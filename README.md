# Plugin index generator

This project models the data transformations of `generate_index.py`. That
script builds the Binary Ninja plugin repository's index: it reads a listing
of `"owner/repo"` sources and fetches each project's release, tag list,
repository record and `plugin.json` manifest from GitHub. It enriches and
normalises each manifest, and compares the result with the previous
`plugins.json` to report new and updated plugins. It then writes the new
index. The downloads and the files are inputs of the model; what the script
computes from them is modelled and proved.

The modules follow the script's structure:

- `Json` defines JSON values, Python subscripting and comparison, and the
  exceptions that end a run.
- `Dicts` models Python's insertion-ordered dict. `Assign` implements
  `d[k] = v`. `FromPairs` is a loop of such assignments, with the theorem
  that the first occurrence of a key fixes its position and the last one
  supplies its value.
- `Names` covers the `"owner/repo"` split, the project and author URLs, and
  the `path` filter `re.sub('[^a-z]', '', full_name)`.
- `Tags` is the linear search for the requested tag.
- `Manifest` is the in-place patch of `api`, `minimumBinaryNinjaVersion`,
  `platforms` and `installinstructions`.
- `Fetch` is `getPluginJson` over given downloads.
- `Progress` is the integer part of `printProgressBar`.
- `Changes` is the previous run's timestamp map and the classification into
  new and updated names.
- `Index` is the collection loop of `main`, the flattened index and a whole
  run.

A Python exception is an `Err` value. A `return None` is
`Ok(NotFetched(reason))`. A failed download is a `None` input.

Where the code and its evident intent disagree, the model follows the code:

- Old-map key. The old map is keyed by `projectData["full_name"]` (line
  136). Each entry is looked up by its listing `name` (lines 140-150), not
  by its own `full_name`. `Index.RerunReportsNothing` therefore states that
  a rerun is quiet when every record's `full_name` equals its listing name.
- Skipped entries. A skipped entry is stored as `None` (line 129) and
  written to `plugins.json`. A failed download is meant to skip only that
  entry. As written, the next run raises at line 136 on that `null`
  element, as `Index.FailedFetchBreaksNextRun` shows.
- `api`. Lines 96-97 wrap only a string in a list, so an `api` that is a
  number, `null` or an object is kept as it is and is not always a list.
  `Manifest.WrappedApi` and `Manifest.PatchShape` state exactly that.
- Empty listing. Line 130 reads the loop variable `plugin`, so an empty
  listing ends the run with a NameError. The model keeps that.

## Model

| member | source | states |
|---|---|---|
| Json.Greater | generate_index.py:150 | `a > b` is defined exactly when both sides are ints or bools, and is then the integer comparison |
| Json.Subscript | generate_index.py:136 | `v[key]` succeeds exactly on an object holding `key` and yields its value; KeyError for a missing key, TypeError on a non-object |
| Dicts.AssignMeaning | generate_index.py:129 | `d[k] = v` keeps the dict well formed, appends `k` only when it is new, keeps the old keys as a prefix, and changes the value of `k` alone |
| Dicts.Values | generate_index.py:159-161 | the value list has one element per key, the i-th being the value of the i-th key |
| Dicts.ValuesList | generate_index.py:159-161 | the append loop builds exactly the values in key order |
| Dicts.FromPairsShape | generate_index.py:126-129 | assigning pairs in turn gives a valid dict whose keys are the distinct keys in first-occurrence order, each holding the value of its last pair |
| Dicts.DedupElements | generate_index.py:126-129 | the key list has no repetition and holds exactly the assigned keys |
| Dicts.DedupFirstOccurrenceOrder | generate_index.py:126-129 | keys appear in the order of their first assignment |
| Dicts.LastValueOfDistinct | generate_index.py:135-136 | when all keys differ, each key holds the value it was given |
| Dicts.LastValueOfLast | generate_index.py:129 | a key holds the value of its last assignment |
| Dicts.FirstIndexExtend | generate_index.py:129 | appending a pair does not move the first occurrence of a key already present |
| Names.Split | generate_index.py:41 | `s.split(c)` yields one more piece than there are separators, and no piece holds the separator |
| Names.JoinSplit | generate_index.py:41 | joining the pieces with the separator gives the string back |
| Names.SplitName | generate_index.py:41 | the two-way unpacking succeeds exactly when the name has one `/`, and then `owner + "/" + repo` is the name with no `/` in either part; otherwise it is a ValueError |
| Names.AuthorUrlIsProjectUrlPrefix | generate_index.py:86-88 | `projectUrl` is `authorUrl` followed by `/` and the repository, both on `https://github.com/` |
| Names.KeepLower | generate_index.py:90 | `path` holds only the letters `a`-`z` and is no longer than `full_name` |
| Names.LowerPositions | generate_index.py:90 | the positions of the lower-case letters, increasing, and every such position is listed |
| Names.KeepLowerKeepsInOrder | generate_index.py:90 | the j-th character of `path` is the j-th lower-case letter of `full_name`, so exactly those letters are kept, in order |
| Names.KeepLowerConcat | generate_index.py:90 | the filter distributes over concatenation |
| Names.KeepLowerChar | generate_index.py:90 | a single character is kept exactly when it is a lower-case letter |
| Names.KeepLowerFixes | generate_index.py:90 | a string of lower-case letters is its own `path` |
| Names.KeepLowerIdempotent | generate_index.py:90 | filtering twice is filtering once |
| Tags.FirstMatch | generate_index.py:56-60 | the position found is that of the first tag with the requested name; there is none exactly when no tag has that name |
| Tags.FindTag | generate_index.py:51-60 | the loop returns the `sha` and `zipball_url` of the first matching tag, and `None` for both when no tag matches |
| Manifest.WrappedApi | generate_index.py:96-97 | a string `api` becomes the one-element list of it; any other value, a list included, is unchanged |
| Manifest.VersionOrZero | generate_index.py:98-99 | `minimumBinaryNinjaVersion` is always an int (bools count): an int (or bool) value is kept, and a missing or non-int value becomes `0` |
| Manifest.PatchKeys | generate_index.py:96-103 | the patch appends exactly the missing ones of `minimumBinaryNinjaVersion`, `platforms`, `installinstructions`, in that order, after the existing keys |
| Manifest.PatchValues | generate_index.py:96-103 | the four fields take their normalised values (`[]` and `{}` only when absent) and every other key keeps its value |
| Manifest.PatchShape | generate_index.py:96-103 | after the patch `api` is not a string, the version is an int, `platforms` and `installinstructions` are present |
| Manifest.PatchIdentity | generate_index.py:96-103 | a record already of that shape is left exactly as it is |
| Manifest.PatchValid | generate_index.py:96-103 | the patch keeps the dict well formed |
| Manifest.Normalize | generate_index.py:96-103 | KeyError exactly when `api` is missing; otherwise the result is the patched record with the normalised shape, still well formed, and a normalised record is returned unchanged |
| Fetch.ReadEntry | generate_index.py:31-45 | an entry with `site` is skipped; otherwise a missing `name` is a KeyError, a non-string name an AttributeError, a name without exactly one `/` a ValueError, a missing `tag` a KeyError, and a success gives name, owner, repository and tag |
| Fetch.FullName | generate_index.py:90 | `projectData["full_name"]` succeeds exactly for an object whose `full_name` is a string, KeyError when it is missing |
| Fetch.Skipped | generate_index.py:44-82 | the fetch gives up at the first failed download or at an unresolved tag, in the order of the requests (release, tag list, tag, project, manifest), and continues exactly when all four arrived and the tag resolved |
| Fetch.AddInternalFields | generate_index.py:85-91 | the seven internal fields receive the timestamp, both URLs, the project record, the archive URL, the `path` and the commit; every other field is unchanged; the keys of the manifest stay a prefix; errors exactly when `full_name` cannot be read |
| Fetch.PatchAfterInternalFields | generate_index.py:85-103 | adding the internal fields and then patching gives the enriched record described by `Enriched` |
| Fetch.GetPluginJson | generate_index.py:30-104 | the outcome is fixed case by case: the entry's own errors, a skipped site, the first failed stage, the errors of lines 90 and 96, and otherwise an enriched, normalised and well formed record |
| Progress.FloorDiv | generate_index.py:18 | Python's `//`: the quotient rounds towards negative infinity, for either sign of the divisor |
| Progress.Repeat | generate_index.py:19 | `c * n` has `max(n, 0)` characters, all `c` |
| Progress.Bar | generate_index.py:17-19 | ZeroDivisionError exactly when the total is zero |
| Progress.BarShape | generate_index.py:17-19 | for `0 <= iteration <= total`, `total > 0`, the bar has exactly `length` characters: `length*iteration div total` fill characters, then dashes |
| Progress.BarComplete | generate_index.py:17-19 | at `iteration == total` the bar is entirely fill |
| Progress.BarPastTheEnd | generate_index.py:17-19 | past the total the bar is all fill and at least `length` wide; it is wider only once `length*iteration // total` exceeds `length` |
| Progress.MulDivBounds | generate_index.py:18 | within range, the filled length lies between 0 and `length` |
| Progress.CollectionBarAsWrittenOverflows | generate_index.py:127 | with the entry's key count as total, four two-key entries give a 120-character bar at the fourth |
| Progress.CollectionBarAsWrittenDividesByZero | generate_index.py:127 | with the entry's key count as total, an entry `{}` raises ZeroDivisionError |
| Progress.CollectionBarWidth | generate_index.py:127 | with the listing's length as total, every bar of the collection is exactly 80 wide |
| Changes.OldEntry | generate_index.py:136 | an element gives `(projectData.full_name, lastUpdated)` exactly when both can be read and the name is hashable; `lastUpdated` is read first; `null` is a TypeError |
| Changes.BuildOldMap | generate_index.py:132-136 | the loop builds the old map of the previous run, or raises the first element's error |
| Changes.OldMapKeepsLast | generate_index.py:135-136 | the old map holds each `full_name` once, in first-occurrence order, with the `lastUpdated` of its last element |
| Changes.OldMapRejectsNull | generate_index.py:136 | a `null` element makes reading the old map fail |
| Changes.StatusOf | generate_index.py:142-150 | new exactly when the name is absent from the old map, updated exactly when present with a strictly greater timestamp, unchanged when equal or smaller; a `None` record with a known name raises TypeError |
| Changes.NamesWith | generate_index.py:152-156 | a name is listed exactly when some entry with that name has the status |
| Changes.Classify | generate_index.py:138-156 | the loop computes `Classification` of the dict's items: the new names and the updated names in dict order, or the first error |
| Changes.ClassificationStops | generate_index.py:140-150 | an entry whose `lastUpdated` is missing or not comparable ends the whole classification with that entry's error |
| Changes.ClassificationMeaning | generate_index.py:144-150 | a key is reported new exactly when absent from the old map, updated exactly when its status is updated, and in neither list exactly when unchanged |
| Changes.NewAndUpdatedAreDisjoint | generate_index.py:152-156 | no name is both new and updated |
| Changes.AppendedCopies | generate_index.py:154-156 | as written each list has one element per entry of its status, all the same stale value |
| Changes.AsWrittenReportsOnlyTheStalePlugin | generate_index.py:152-156 | as written the lists have the right lengths but hold nothing other than the stale value |
| Changes.AsWrittenLosesAnEntry | generate_index.py:154 | as written a first run over `a/b` and `c/d`, both on another site, reports the `c/d` entry twice |
| Changes.FirstRunReportsBothEntries | generate_index.py:144-145 | classified per entry, the same run reports both `a/b` and `c/d` as new |
| Index.FetchValue | generate_index.py:128-129 | the stored value is `None` exactly for a skipped entry and the record otherwise |
| Index.KeyOf | generate_index.py:129 | `plugin["name"]` is a key exactly when present and hashable; KeyError when missing |
| Index.StepPair | generate_index.py:128-129 | an exception of the fetch ends the step before the key is read |
| Index.Collection | generate_index.py:124-130 | the collected dict is well formed |
| Index.Collect | generate_index.py:124-130 | the loop fetches the entries in order with their own downloads; every step but the last succeeds, it stops early only on an exception, and otherwise builds the dict of all the entries |
| Index.StepNames | generate_index.py:129 | the j-th assigned key is the `name` of the j-th entry |
| Index.CollectionShape | generate_index.py:124-129 | `allPlugins` holds each listing name once, in first-occurrence order, with the value the last entry of that name stored |
| Index.IndexListShape | generate_index.py:159-161 | the index list has one element per distinct name, in first-occurrence order, each being what that name's last entry stored |
| Index.GenerateIndex | generate_index.py:124-161 | the collection goes through the entries until the first exception, as in `Index.Collect`; the run fails with the first exception of collection, old map or classification, in that order, and otherwise reports the flattened dict with the new and the updated names |
| Index.RereadOldMap | generate_index.py:132-136 | an index whose records list their own key as `full_name` reads back as an old map holding each record's own `lastUpdated` under its key |
| Index.RerunReportsNothing | generate_index.py:132-150 | rereading an index whose records list their own key as `full_name` reports nothing new and nothing updated |
| Index.OtherSiteIsSkipped | generate_index.py:31-33 | an entry with a `site` is skipped whatever its downloads |
| Index.FirstRunSteps | generate_index.py:126-129 | a run over the two-entry listing of `Changes.AsWrittenLosesAnEntry` raises at no step |
| Index.FirstRunCollects | generate_index.py:126-129 | that run collects `None` under `a/b` and then under `c/d`, which are the items the example classifies |
| Index.FailedFetchBreaksNextRun | generate_index.py:129-136 | a skipped entry that no later entry of the same name overrides makes the next run's old map fail |

## Left out

- Downloads (lines 27-28, 44-82): the four requests of each entry are inputs. A download that fails is `None`, which stands for the `HTTPError` branch. The script never calls `raise_for_status`, so in practice an HTTP error status may reach `.json()` instead. That path is not modelled.
- Decoding (lines 78-79): the manifest is given as the decoded `plugin` object. The `content` key, base64 and `json.loads` are not modelled.
- Release time (line 85): `published_at` is given as an integer Unix timestamp. The `dateutil` parsing is not modelled.
- Tag list (lines 56-59): its elements are assumed to carry `name`, `commit.sha` and `zipball_url`. A malformed element, which would raise KeyError, is not modelled.
- Equality: JSON values compare structurally. Python's `1 == True` and its order-insensitive dict comparison are not modelled.
- Fetch.GetPluginJson: the record's key order is stated only as far as the manifest's keys coming first. The positions of the seven internal fields among the added keys are not stated.
- Hashing: a name is treated as hashable unless it is a list or an object. Python also accepts floats, which are not modelled.
- Progress bar: the float percentage, the writes to standard output and the trailing newline (lines 20-25) are not modelled. The arithmetic is modelled by `Progress.Bar`.
- Index.Collect: follows the corrected bar of line 127, with `len(listing)` as its total, which never divides by zero inside the loop; so the bar is not part of the loop. As written, an entry `{}` ends the run with ZeroDivisionError at line 18 before it is fetched; the model reports `KeyError("name")` for it. That case is `Progress.CollectionBarAsWrittenDividesByZero`, in the Findings table.
- The bars of lines 130 and 158 change no state and are not part of `Index.Collect` or `Index.GenerateIndex`.
- Listing elements: they are objects. An element that is not an object, which reaches `len()` at line 127 and `in` at line 31, is not modelled.
- Console output: the messages of lines 32, 48, 62, 65, 72 and 81 are output only and are not modelled.
- Summary of lines 163-169: not modelled; the model's run ends with the report. These lines are not output only: lines 165 and 168 read `plugin["name"]` of every reported element. As written, each element is the stale `plugin`. When `plugins.json` was read and is non-empty, that is the previous run's last record, and a record without `name` raises KeyError (a `null` one TypeError) before line 171 writes the index. Under the corrected classification the elements are names, and `plugin["name"]` on a string raises TypeError, so the correction must also print the name itself.
- Files and arguments (lines 106-125, 133-134, 170-171): argparse, the credentials and the file reads and writes are not modelled. The previous `plugins.json` is an optional input list. A listing or index that is not a JSON list is not modelled.
- README template (lines 173-189): the Markdown page is not modelled.

## Findings

| source | as written | input that shows it | evidently intended | confidence | as-written member | corrected member |
|---|---|---|---|---|---|---|
| generate_index.py:127 | the collection bar uses `len(plugin)`, the key count of the current entry, as its total | four entries `{"name": "a/b", "tag": "v1"}`: at the fourth the bar is 120 characters; an entry `{}` raises ZeroDivisionError | the total is `len(listing)`, so every bar is 80 wide | not executed | Progress.CollectionBarAsWrittenOverflows | Progress.CollectionBarWidth |
| generate_index.py:154-156 | new and updated plugins are reported by appending the loop variable `plugin`, left over from an earlier loop | a first run without `plugins.json` over entries `{"name": "a/b", "site": "gitlab.com"}` and `{"name": "c/d", "site": "gitlab.com"}`: the new list is the `c/d` entry twice | append the name being classified, and print that name itself at lines 165 and 168, where the code reads `plugin["name"]` | not executed | Changes.AsWrittenLosesAnEntry | Changes.Classify |
