# OrgChart chart-mutation model

A Dafny model of the server side of the WordPress OrgChart plugin. The plugin
stores the whole organisational chart as one option, `orgchart_data`. That
option holds a flat, ordered list of node records. Each record is a
string-keyed object with an `id` and a `pid` parent link. The AJAX handler
`orgchart_update_data` applies one action per request to that list:

- `add` appends the decoded node.
- `update` shallow-merges the payload into the first record with the same `id`.
- `remove` drops every record with the given `id`.

The handler answers `{success, message, new_data?}`. Plugin activation seeds a
three-person chart when the option does not exist. Deactivation deletes the
option.

Modules:

- `Json` (`json.dfy`): decoded JSON values, `Node = map<string, Value>`, and
  the PHP truthiness the handler relies on (`if ($new_node)`, `isset`,
  `if ($node_id)`).
- `ChartOps` (`chart_ops.dfy`): id matching, `array_merge`, first-match update
  and filter-remove over `seq<Node>`. It also holds two loop methods that
  mirror the source's `foreach` and `array_filter` and are proved equal to the
  functional definitions.
- `Store` (`store.dfy`): the option as `Absent | Saved(nodes) | Unreadable`
  and how the handler reads it.
- `UpdateHandler` (`update_handler.dfy`): the `action_type` switch (`Apply`),
  the whole request with its write and response (`Handle`), and lemmas over
  request sequences.
- `Lifecycle` (`lifecycle.dfy`): the seed, activation and deactivation.
- `Scenarios` (`scenarios.dfy`): concrete request sequences on the seed chart.

Foreign calls become parameters:

- The result of `wp_verify_nonce` is `Request.nonceValid`.
- The JSON-decoded payload is `Request.data`. `None` stands for `null`.
- The return value of `update_option` is the `writeOk` argument. A failed
  write leaves the store as it was.

Three behaviours of the code are easy to miss:

- A successful remove drops every record with that id, so the length falls by
  the number of matching records (orgchart.php:141-147).
- An update payload whose `id` is `null` counts as missing, because the code
  uses `isset` (orgchart.php:112).
- A `node_id` of `"0"` is falsy in PHP, so it is refused as a missing id
  (orgchart.php:138).

## Model

| member | source | states |
|---|---|---|
| ChartOps.Count | orgchart.php:141-147 | the number of records carrying an id is at most the list length, and is zero exactly when no record carries it |
| ChartOps.CountAppend | orgchart.php:100 | appending a record raises the count of an id by one exactly when the record carries it; duplicates are not rejected |
| ChartOps.Merge | orgchart.php:118 | the merged record has exactly the keys of both; payload keys take the payload's value and every other key keeps the old value |
| ChartOps.MergeIdempotent | orgchart.php:118 | merging the same fields twice gives the same record as merging once |
| ChartOps.FirstMatch | orgchart.php:115-121 | the returned index holds a matching record and no earlier record matches; none is returned exactly when no record matches |
| ChartOps.UpdateFirst | orgchart.php:113-123 | fails exactly when no record carries the payload's id; otherwise the length is kept, only the first matching record is replaced by its merge with the payload, and every other position is unchanged |
| ChartOps.UpdateFirstIdempotent | orgchart.php:115-123 | applying the same update to the updated list gives the same list again |
| ChartOps.Without | orgchart.php:141-145 | no survivor carries the id, and the length falls by exactly the number of records that carry it |
| ChartOps.WithoutMembers | orgchart.php:141-143 | a record survives exactly when it was in the list and does not carry the id, whatever its pid |
| ChartOps.WithoutNoMatch | orgchart.php:141-147 | when no record carries the id, the filtered list equals the original, so the count does not drop |
| ChartOps.WithoutAppend | orgchart.php:141-145 | filtering a concatenation is the concatenation of the filtered parts, so survivors keep their relative order |
| ChartOps.WithoutSnoc | orgchart.php:141-143 | filtering a list extended by one record extends the survivors by that record exactly when it does not carry the id |
| ChartOps.WithoutPrefixStep | orgchart.php:141-145 | the survivors of a prefix one record longer are the previous survivors followed by that record exactly when it does not carry the id |
| ChartOps.WithoutLeavesNoMatch | orgchart.php:141-147 | no survivor carries the removed id, so filtering again removes nothing |
| ChartOps.MergeIntoFirst | orgchart.php:113-123 | the loop reports found exactly when some record carries the payload's id; when found, its result equals the first-match update; otherwise the list is unchanged |
| ChartOps.FilterOut | orgchart.php:139-145 | the filtering loop produces exactly the survivors list |
| UpdateHandler.Apply | orgchart.php:96-163 | add commits exactly for a non-empty payload and appends it after the unchanged old records; update refuses a payload without an id, refuses an unknown id, and otherwise commits the first-match merge; remove refuses a falsy node id, refuses when nothing matches, and otherwise commits the filtered list; any other action is refused; each branch carries the source's message |
| UpdateHandler.Handle | orgchart.php:70-168 | a bad nonce is rejected with no write; otherwise a write is issued exactly when the action commits; new_data is present exactly then; success holds exactly when the action committed and the write returned true; the store changes only through such a write |
| UpdateHandler.UnreadableActsEmpty | orgchart.php:86-90 | an unreadable or absent option gives the same response as an empty chart |
| UpdateHandler.AddTwiceKeepsDuplicates | orgchart.php:97-104 | adding the same non-empty node twice succeeds both times and leaves two more records with its id |
| UpdateHandler.RemoveTwiceFails | orgchart.php:137-154 | after a successful remove, the identical request fails with "Node not found for removal." and leaves the store unchanged |
| UpdateHandler.RemoveKeepsChildren | orgchart.php:141-143 | a record whose own id differs survives a successful remove, whatever its pid says (no cascade) |
| UpdateHandler.UpdateTwiceSameChart | orgchart.php:110-128 | after a successful update, repeating it commits and re-writes the identical chart; the store stays as the first update left it, and the repeat's success is exactly the second write's result |
| Lifecycle.SeedWellLinked | orgchart.php:230-234 | the seed has three records with distinct ids, and every pid is either empty or an existing id |
| Lifecycle.Activate | orgchart.php:226-238 | an existing option (even an unreadable one) is never overwritten; an absent option with a successful write becomes the three-record seed |
| Lifecycle.Deactivate | orgchart.php:248-251 | after deactivation the chart reads as empty |
| Lifecycle.ActivateIdempotentAndReseeds | orgchart.php:226-251 | activating twice is the same as activating once; activation after deactivation seeds the chart again |
| Scenarios.UpdateTitleOnSeed | orgchart.php:110-128 | updating record "2" with only a new Title keeps its other fields and leaves records "1" and "3" as they were |
| Scenarios.RemoveRootOrphansChildren | orgchart.php:137-151 | removing root "1" from the seed leaves records "2" and "3" with a dangling pid |
| Scenarios.AddSameIdTwice | orgchart.php:97-104 | adding the same new hire twice leaves two records with id "4" |
| Scenarios.RemoveZeroIdIsMissing | orgchart.php:137-157 | a node_id of "0" is refused with "Missing node ID for removal." and the store is not touched |

## Left out

- ChartOps.HasId: PHP's loose `==` is modelled as exact value equality. So a numeric id `1` and the string `"1"` do not match here, although they do in PHP. Likewise a record without an id never matches an empty-string id.
- ChartOps.Merge: `array_merge` renumbers keys that PHP stores as integers, such as a JSON key `"5"`. All keys are modelled as strings that override. The key order of the merged record is not modelled, since Dafny maps are unordered.
- Non-object payloads are not modelled. A scalar or a JSON list that decodes to a truthy non-object would be appended by add; the model's payload is an object or `null`.
- A stored top-level JSON object or a list with non-object elements is not modelled. The stored chart is either a list of records or unreadable.
- Numbers are integers; JSON floating point is not modelled.
- JSON encoding, `wp_unslash` and `sanitize_text_field` are library calls. The payload arrives already decoded and `node_id` already sanitised.
- `update_option`, `get_option` and `delete_option` are an abstract store with a boolean write result. WordPress's own rule that `update_option` returns false for an unchanged value lives inside that boolean.
- Nonce verification (`wp_verify_nonce`) is a foreign call. It is reduced to a boolean that short-circuits before any mutation.
- `handle_image_upload` (orgchart.php:180-218) is a pass-through to the WordPress media subsystem and is not part of this model.
- Script and style enqueueing, the shortcode and hook registration are framework plumbing.
- orgchart-script.js is not part of this model. It holds browser event wiring, the third-party chart widget, `fetch`, alerts and the display-only placeholder node.
- Read-modify-write races between concurrent requests are not modelled: each request is one sequential step on the store.
