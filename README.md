# cache_debug, modelled in Dafny

`cache_debug` is a Drupal debugging aid in two halves that share a small wire format.

- **The emitter.** `DebugBackend` (PHP) decorates the in-memory cache store. On every `get`, `set` or `delete` it prints one HTML comment, `<!-- CACHE_DEBUG:{json} -->`. The JSON object has the keys `method`, `cid` and `tags`. The backend then hands the call to its parent, `MemoryBackend`. As written, `set` called without `$expire` fails before it prints anything, because its default names a class that does not exist (see Findings). The `DebugBackend.Set` of the model is the corrected method; `DebugBackend.SetAsWritten` is the code as written.
- **The consumer.** `Drupal.CacheDebug` (JavaScript) runs on every element of the page:
  - it collects the element's direct comment children, trimmed;
  - it keeps those that start with `CACHE_DEBUG:` and parses the rest as JSON;
  - it cuts each record's cache id at the first `:[`, which is where the context part starts;
  - it writes the distinct results, one per line, into the element's `data-cache-helper` attribute.

The model has one Dafny module per concern:

| file | module | what it holds |
|---|---|---|
| `wrappers.dfy` | `Wrappers` | `Option`, `Result` and `Outcome` (a result with no value) |
| `sequences.dfy` | `Sequences` | `MapAll`: a step applied to each element, where the first failure aborts the whole run, as an uncaught exception does |
| `js_string.dfy` | `JsString` | `String.prototype.trim` (ECMAScript white space and line terminators), `indexOf`, the first piece of `split`, and `join` with `split` as its inverse |
| `json.dfy` | `Json` | JSON values, member lookup (the last duplicate wins), and `RoundTrips(encode, parse, v)`: `parse` reads back what `encode` writes for `v` |
| `js_object.dfy` | `JsObject` | how `keys[k] = 1` on a plain `{}` records keys, and the order in which `Object.keys` lists them |
| `client_script.dfy` | `ClientScript` | a `DomElement` class (child nodes and attributes), and `getComments`, `getData`, `buildData` and the guard in `attach` as module-level methods that take an element, each proved against a specification function |
| `php_backend.dfy` | `PhpBackend` | `printComment`'s output, and the `DebugBackend` class |
| `wire_format.dfy` | `WireFormat` | how a browser reads the printed comment back, and the end-to-end round trip from PHP to the attribute |

Some notes on the `DebugBackend` class:
- It holds the parent's store as a map, `items`.
- It holds everything observable, in order, as a trace of events. `Printed(markup)` is text sent to the output, and `Delegated(op)` is a call handed to the parent.
- Each operation appends exactly `[Printed(comment), Delegated(op)]`.

Some notes on JSON and errors:
- `json_encode` and `JSON.parse` are parameters of type `Json -> string` and `string -> Option<Json>`.
- Where a property needs a faithful round trip, it requires `RoundTrips(encode, parse, v)` for just the values printed, the backend's records. A real pair cannot read back every value: `JSON.parse` keeps only the last of duplicate members.
- The script has no `try`/`catch`, so two things throw out of the whole call:
  - a payload that `JSON.parse` rejects makes the whole `getData` fail with `SyntaxError`;
  - a record without a string `cid` makes the whole `buildData` fail with `TypeError`.

Some notes on what the script does:
- A payload that `JSON.parse` rejects aborts the whole `getData` call; the loop has no `try`/`catch`, so no later comment is read.
- Only the element's direct children are read. Comments deeper in the subtree, and comments beside the element, are never seen.
- A cache id is cut only at its first `:[`. Nothing else in the id is interpreted.
- The attribute lists what `Object.keys` returns. So array-index ids come first in ascending numeric order, then the other ids in first-seen order. A key `__proto__` is never listed, because the inherited setter swallows the assignment.

## Model

| member | source | states |
|---|---|---|
| `JsString.LeadingSpace` | js/cache-debug.js:48 | the count of leading white space never exceeds the length |
| `JsString.TrailingSpace` | js/cache-debug.js:48 | the count of trailing white space never exceeds the length |
| `JsString.Trim` | js/cache-debug.js:48 | trimming never lengthens a string |
| `JsString.TrimSpec` | js/cache-debug.js:48 | `trim` keeps a slice of its input, cuts only white space on either side, and leaves neither end as white space |
| `JsString.TrimPadded` | js/cache-debug.js:48 | any amount of white space around a text with no white space at its ends is removed exactly |
| `JsString.TrimIdempotent` | js/cache-debug.js:48 | trimming twice equals trimming once |
| `JsString.LeadingSpaceSpec` | js/cache-debug.js:48 | the run cut from the start is white space and is the longest such run |
| `JsString.TrailingSpaceSpec` | js/cache-debug.js:48 | the run cut from the end is white space and is the longest such run |
| `JsString.IndexOf` | js/cache-debug.js:58 | the result is -1 exactly when the text does not occur; otherwise it is the first position where it occurs |
| `JsString.IndexOfZero` | js/cache-debug.js:58 | `indexOf(prefix) === 0` holds exactly when the string starts with the prefix |
| `JsString.FirstFrom` | js/cache-debug.js:71 | the first position from a start index at which any separator occurs, or -1 when there is none |
| `JsString.Before` | js/cache-debug.js:71-72 | the longest prefix in which no separator starts; either all of the string, or a separator starts right after it; this is `split(':[', 2)[0]`, which always exists |
| `JsString.BeforeFirst` | js/cache-debug.js:71-72 | when a separator first starts at index l, the piece kept is exactly the first l characters |
| `JsString.JoinSeparators` | js/cache-debug.js:75 | `join('\n')` starts with the first part, and of parts without a line break it makes a text with exactly one line break per pair of neighbours |
| `JsString.Split` | js/cache-debug.js:75 | the inverse of `join('\n')`: splitting at one character always yields at least one part |
| `JsString.SplitParts` | js/cache-debug.js:75 | as the inverse of `join('\n')`: no part of a `split` holds the separator, and joining the parts gives the text back |
| `JsString.CutAt` | js/cache-debug.js:75 | where the split that inverts `join('\n')` cuts: at the first occurrence of the character, with none before it, or nowhere when it is absent |
| `JsString.SplitJoin` | js/cache-debug.js:75 | joining parts that contain no line break, then splitting at line breaks, gives the parts back |
| `Sequences.MapAll` | js/cache-debug.js:57-63 | a loop with no `try` yields one result per element when it succeeds, and otherwise the step's exception |
| `Sequences.MapAllSnoc` | js/cache-debug.js:57-63 | one more element continues from where the loop stopped: a failure stays, a rejected element fails, an accepted one appends its result |
| `Sequences.MapAllPair` | js/cache-debug.js:70-74 | a loop over two accepted elements yields their two results, in order |
| `Sequences.MapAllAbort` | js/cache-debug.js:57-63 | once the loop has thrown, more elements do not undo the exception |
| `Sequences.MapAllSpec` | js/cache-debug.js:57-63 | a loop with no `try` succeeds exactly when every step succeeds, and then yields one result per element, in order; otherwise the error is the step's exception |
| `Json.Lookup` | js/cache-debug.js:71 | a member lookup is absent exactly when no member has the name |
| `Json.LookupLast` | js/cache-debug.js:71 | `value.cid` reads the last member with that name, as `JSON.parse` keeps the last duplicate |
| `Json.Member` | js/cache-debug.js:71 | only an object has members; on an object the property is `undefined` exactly when no member has the name |
| `JsObject.ArrayIndexLength` | js/cache-debug.js:75 | an array-index key has one to ten digits, and only `0` starts with a zero |
| `JsObject.Insert` | js/cache-debug.js:75 | insertion adds one key |
| `JsObject.InsertSpec` | js/cache-debug.js:75 | inserting into an ascending list keeps it ascending and adds exactly that key |
| `JsObject.Sort` | js/cache-debug.js:75 | sorting keeps the number of keys |
| `JsObject.SortSpec` | js/cache-debug.js:75 | array-index keys are ordered ascending by numeric value, as a permutation |
| `JsObject.ObjectKeys` | js/cache-debug.js:75 | `Object.keys` lists every own key exactly once: its listing is a permutation of the keys |
| `JsObject.KeysWhereCounts` | js/cache-debug.js:75 | filtering by kind keeps each key of that kind as often as it occurs, and no key of the other kind |
| `JsObject.KeysWhereSplit` | js/cache-debug.js:75 | the index keys and the other keys together are a permutation of all keys |
| `JsObject.ObjectKeysLayout` | js/cache-debug.js:75 | `Object.keys` lists the array-index keys first, ascending, then the other keys in creation order |
| `JsObject.ObjectKeysWithoutIndices` | js/cache-debug.js:75 | with no array-index key, `Object.keys` is the creation order |
| `JsObject.KeysWhereOfNone` | js/cache-debug.js:75 | filtering for non-index keys keeps a list that holds none |
| `JsObject.AssignKey` | js/cache-debug.js:73 | `keys[k] = 1` keeps the existing keys and adds `k` unless it is already there or is `__proto__` |
| `JsObject.OwnKeys` | js/cache-debug.js:70-74 | after the `forEach`, there are never more own keys than writes, and `__proto__` is never one |
| `JsObject.FirstIndex` | js/cache-debug.js:73 | the position of the first occurrence of a key |
| `JsObject.FirstIndexExtend` | js/cache-debug.js:73 | writing a further key does not move where an earlier key was first written |
| `JsObject.OwnKeysCount` | js/cache-debug.js:70-74 | after the `forEach`, `keys` has one own key per distinct written key, except `__proto__`, which has none |
| `JsObject.OwnKeysOrder` | js/cache-debug.js:70-74 | own keys are created in the order their keys were first written |
| `JsObject.KeysWhereBound` | js/cache-debug.js:75 | dropping the keys of one kind keeps every key first written before a bound |
| `JsObject.KeysWhereKeepsOrder` | js/cache-debug.js:75 | dropping the keys of one kind keeps first-seen order |
| `JsObject.ListedKeys` | js/cache-debug.js:69-75 | `Object.keys(keys)` lists each distinct written key except `__proto__` once; array indices come first and ascending, then the rest in first-seen order |
| `ClientScript.DomElement.constructor` | js/cache-debug.js:43 | an element with the given children and no attributes |
| `ClientScript.CommentsOf` | js/cache-debug.js:42-52 | never more comments than children |
| `ClientScript.GetComments` | js/cache-debug.js:42-52 | the loop returns the trimmed data of the comment children, in child order |
| `ClientScript.CommentPositions` | js/cache-debug.js:46-47 | the indices of the comment children, strictly increasing, naming every comment child and nothing else |
| `ClientScript.CommentsOfPositions` | js/cache-debug.js:43-51 | one entry per comment child, in child order, each its data trimmed; never more entries than children |
| `ClientScript.CountIncreasing` | js/cache-debug.js:46 | strictly increasing indices below n number at most n |
| `ClientScript.CommentsOfAppend` | js/cache-debug.js:46-50 | the scan of two runs of children is the scan of the first followed by the scan of the second |
| `ClientScript.NonCommentChildIgnored` | js/cache-debug.js:47 | a text or element child contributes nothing, whatever it contains; the scan does not descend |
| `ClientScript.Payloads` | js/cache-debug.js:57-60 | never more payloads than comments |
| `ClientScript.DataOf` | js/cache-debug.js:54-65 | `getData` fails only with `SyntaxError`, and otherwise returns one record per payload |
| `ClientScript.GetData` | js/cache-debug.js:54-65 | the loop returns the parsed payloads of the prefixed comments, or throws at the first payload that does not parse |
| `ClientScript.GetDataStep` | js/cache-debug.js:57-63 | one pass of the loop that goes on: an unprefixed comment adds nothing, a prefixed one adds its parsed payload |
| `ClientScript.GetDataAbort` | js/cache-debug.js:58-60 | a prefixed comment whose payload does not parse makes the whole call throw, whatever follows |
| `ClientScript.PayloadsStep` | js/cache-debug.js:58-60 | one more comment adds its payload exactly when it starts with the prefix |
| `ClientScript.PayloadsAppend` | js/cache-debug.js:57-58 | the filter over two runs of comments is the filter of each, concatenated |
| `ClientScript.UnprefixedCommentIgnored` | js/cache-debug.js:58 | a comment that does not start with the prefix is never decoded, whatever it contains |
| `ClientScript.PrefixedCommentDecoded` | js/cache-debug.js:58-60 | a prefixed comment contributes, in its place, the text after the 12-character prefix |
| `ClientScript.GetDataRecords` | js/cache-debug.js:57-64 | one record per trace comment, in order, each parsed from its payload; any unparsable payload makes the whole call throw `SyntaxError` |
| `ClientScript.PayloadsEmpty` | js/cache-debug.js:57-58 | no payloads exactly when no comment starts with the prefix |
| `ClientScript.NoRecordsIffNoTraceComment` | js/cache-debug.js:29-30 | `getData` returns `[]` exactly when no comment child, once trimmed, starts with the prefix |
| `ClientScript.PureCid` | js/cache-debug.js:71-72 | `split(':[', 2)[0]` is a prefix of the id with no `:[` in it; it is the whole id, or `:[` follows it |
| `ClientScript.CidOf` | js/cache-debug.js:71 | `value.cid` is usable exactly when the record is an object whose `cid` member is a string, and then it is that string |
| `ClientScript.KeysOf` | js/cache-debug.js:70-74 | the `forEach` succeeds exactly when every record has a string `cid`; otherwise it throws `TypeError` |
| `ClientScript.CollectKeysStep` | js/cache-debug.js:70-74 | one pass of the `forEach`: a record without a string `cid` throws, any other assigns its pure id as a key |
| `ClientScript.HelperValue` | js/cache-debug.js:67-76 | `buildData` throws `SyntaxError` when `getData` does, otherwise succeeds exactly when every record has a string `cid` and else throws `TypeError` |
| `ClientScript.CollectKeys` | js/cache-debug.js:70-74 | the `forEach` creates the own keys of the records' pure ids, in order, or throws `TypeError` at a record without a string `cid` |
| `ClientScript.BuildData` | js/cache-debug.js:67-76 | writes the newline-joined `Object.keys` listing into `data-cache-helper`, leaving other attributes alone; if it throws, nothing is written |
| `ClientScript.AttachTo` | js/cache-debug.js:29-32 | `buildData` runs only when `getData` returns a non-empty list; otherwise the attributes are unchanged; an exception from `getData` propagates |
| `ClientScript.HelperRecords` | js/cache-debug.js:70-74 | one pure id per record, in order, cut from that record's `cid` |
| `ClientScript.HelperListing` | js/cache-debug.js:69-75 | the attribute lists each distinct pure id once, array indices first and ascending, then first-seen order; splitting it at line breaks gives the list back when no id holds one |
| `ClientScript.HelperListingWithoutIndices` | js/cache-debug.js:69-75 | with no array-index id, the listing is the distinct ids in first-seen order |
| `PhpBackend.TraceRecordMembers` | src/Cache/DebugBackend.php:34-38 | the record's `method` and `cid` are the arguments; `tags` is `null` exactly when no tags were passed, and otherwise the tags as an array of strings |
| `PhpBackend.CommentMarkup` | src/Cache/DebugBackend.php:39 | `<!--`, then ` CACHE_DEBUG:`, then the JSON text, then ` -->`; 21 characters longer than the JSON |
| `PhpBackend.TraceComment` | src/Cache/DebugBackend.php:33-39 | the printed text is `<!--`, then ` CACHE_DEBUG:`, then the JSON of `{method, cid, tags}`, then ` -->`; it is 21 characters longer than the JSON |
| `PhpBackend.OpRecordMembers` | src/Cache/DebugBackend.php:13-38 | each operation's record names its method and cache id; `get` and `delete` report `null` tags, `set` reports its own tags as an array of strings |
| `PhpBackend.OpTrace` | src/Cache/DebugBackend.php:13-14 | one operation prints exactly one comment, its own, and its last step is the call to the parent |
| `PhpBackend.TraceOf` | src/Cache/DebugBackend.php:12-31 | a run of operations takes two events per operation |
| `PhpBackend.PrintedText` | src/Cache/DebugBackend.php:39 | no more printed texts than events |
| `PhpBackend.PrintedTextAppend` | src/Cache/DebugBackend.php:13-14 | the output of two runs of events is the output of each, concatenated |
| `PhpBackend.TraceOfLayout` | src/Cache/DebugBackend.php:12-31 | for the i-th operation, event 2i prints its comment and event 2i+1 delegates it |
| `PhpBackend.PrintedTextOfTrace` | src/Cache/DebugBackend.php:12-31 | the output of a run of operations is their comments, one each, in the order of the operations |
| `PhpBackend.SetWithoutExpireFailsAsWritten` | src/Cache/DebugBackend.php:20-23 | as written, `set($cid, $data)` fails on the unknown class and neither prints nor stores; the corrected `set` prints the comment with empty tags and stores the item |
| `PhpBackend.Expire` | src/Cache/DebugBackend.php:20 | corrected: an omitted `$expire` is `Cache::PERMANENT` (-1), and a given one agrees with the code as written |
| `PhpBackend.OmittedTagsAreEmpty` | src/Cache/DebugBackend.php:20-21 | `set` without tags reports `tags` as the empty JSON array, not `null`, and stores an item with no tags |
| `PhpBackend.DebugBackend.constructor` | src/Cache/DebugBackendFactory.php:12-14 | a new backend starts with an empty store and an empty output |
| `PhpBackend.DebugBackend.Get` | src/Cache/DebugBackend.php:12-15 | prints the `get` record (tags `null`), then returns the parent's result unchanged; the store is unchanged |
| `PhpBackend.DebugBackend.Set` | src/Cache/DebugBackend.php:20-23 | corrected: prints the `set` record with the caller's tags, then stores the item through the parent, with an omitted `$expire` taken as `Cache::PERMANENT` |
| `PhpBackend.DebugBackend.SetAsWritten` | src/Cache/DebugBackend.php:20-23 | as written: with `$expire` omitted the call fails on the unknown class and nothing is printed or stored; with it given, as the corrected `set` |
| `PhpBackend.DebugBackend.Delete` | src/Cache/DebugBackend.php:28-31 | prints the `delete` record (tags `null`), then removes the id through the parent |
| `PhpBackend.DebugBackend.PrintComment` | src/Cache/DebugBackend.php:33-40 | appends exactly the record's comment to the output; nothing else changes |
| `PhpBackend.DebugBackend.ParentGet` | src/Cache/DebugBackend.php:14 | the parent returns the stored item or nothing, and the call is recorded |
| `PhpBackend.DebugBackend.ParentSet` | src/Cache/DebugBackend.php:22 | the parent stores the item under the id, and the call is recorded |
| `PhpBackend.DebugBackend.ParentDelete` | src/Cache/DebugBackend.php:30 | the parent drops the id, and the call is recorded |
| `PhpBackend.TraceOfCalls` | src/Cache/DebugBackend.php:12-31 | on a fresh backend, `set` (with `$expire` passed explicitly), `get` and `delete` of one id: the `get` returns the stored item and the three comments are printed in call order |
| `WireFormat.CommentData` | src/Cache/DebugBackend.php:39 | a browser reads a comment's data up to the first `-->` or `--!>` |
| `WireFormat.EndNotBefore` | src/Cache/DebugBackend.php:39 | no comment terminator starts inside the printed comment before its own ` -->`, when the JSON holds none |
| `WireFormat.PrintedCommentData` | src/Cache/DebugBackend.php:39 | the printed comment's data is ` CACHE_DEBUG:` + JSON + ` ` |
| `WireFormat.PrintedCommentRecognised` | js/cache-debug.js:58-60 | once trimmed, that data starts with the script's prefix, and what follows the prefix is the printed JSON text |
| `WireFormat.CommentEndInJsonTruncates` | src/Cache/DebugBackend.php:39 | a `-->` or `--!>` inside the JSON ends the comment early, so the script never sees the printed record |
| `WireFormat.CommentsOfComments` | js/cache-debug.js:46-49 | when every child is a comment, `getComments` yields each one's data trimmed |
| `WireFormat.PayloadsOfTraces` | js/cache-debug.js:58-60 | when every comment is prefixed, each payload is its text after the prefix |
| `WireFormat.CommentNodes` | src/Cache/DebugBackend.php:39 | one node per printed text, and a comment node exactly when the text opens with `<!--` |
| `WireFormat.PrintedComments` | js/cache-debug.js:42-52 | the comments the backend printed reach `getComments` as the prefix followed by their JSON |
| `WireFormat.PrintedPayloads` | js/cache-debug.js:57-62 | the payloads `getData` parses are exactly the JSON texts the backend encoded |
| `WireFormat.RecordCid` | src/Cache/DebugBackend.php:34-38 | each printed record's `cid` is the operation's cache id |
| `WireFormat.DataOfEncoded` | js/cache-debug.js:54-65 | payloads that the serialiser wrote decode to the values it was given |
| `WireFormat.PrintedRecordsDecoded` | js/cache-debug.js:54-65 | end to end: `getData` over the printed comments returns the records of the operations, in order |
| `WireFormat.NoMarkerAt` | js/cache-debug.js:71 | `:[` does not start where the two characters are not `:` and `[` |
| `WireFormat.ContextCut` | js/cache-debug.js:71-72 | `node:5:[lang]=en` becomes `node:5` |
| `WireFormat.SameKeyTwice` | js/cache-debug.js:70-74 | two records with the same pure id leave a single own key |
| `WireFormat.ExampleKeys` | js/cache-debug.js:70-74 | a `get` and a `set` of `node:5:[lang]=en` leave the single key `node:5` |
| `WireFormat.ExampleListing` | js/cache-debug.js:75 | the listing of that single key is `node:5` |
| `WireFormat.GetThenSetExample` | js/cache-debug.js:67-76 | a `get` and a `set` of `node:5:[lang]=en`, printed into one element, give `data-cache-helper` the value `node:5` |

## Left out

- `DebugBackendFactory` (src/Cache/DebugBackendFactory.php) only constructs a backend for a bin. The bin name plays no part in the model.
- `MemoryBackend` is not part of this model. The parent store is a plain map from cache id to item. So expiry, `allow_invalid`, validity checks, tag invalidation and the stored item's extra fields (`created`, serialisation) are not modelled.
- `json_encode` and `JSON.parse` are parameters. Their behaviour is assumed only through `RoundTrips`, and JSON numbers are integers.
- Strings are sequences of characters. The model ignores the difference between PHP byte strings and JavaScript UTF-16 strings.
- The output stream is the backend's event trace. Actual output buffering and page placement are not modelled.
- HTML tokenising is cut down to the two comment terminators, `-->` and `--!>`. Other parse errors (`<!-->`, `<!--->`, nested `<!--`) are not modelled.
- `buildInterface` (js/cache-debug.js:79-93) builds DOM nodes. It appends one span per record, without deduplication.
- jQuery plumbing is not modelled:
  - `$('*', context)` and the walk over every element;
  - `.once('cache-helper')`;
  - the unused `$('.recipe')` lookup (js/cache-debug.js:25);
  - the fact that an exception thrown for one element stops the walk over the rest. `AttachTo` is the body run for a single element.
- Tags are modelled as a PHP list. `json_encode` writes an array whose keys are not 0..n-1 as a JSON object, not an array, so a caller passing such an array would see an object under `tags`; the model does not cover it.
- `ClientScript.AttachTo`: the source tests `data && data.length`. Since `getData` always returns an array, this is the non-empty test.

## Findings

| source | as written | input that shows it | evidently intended | confidence | as-written member | corrected member |
|---|---|---|---|---|---|---|
| src/Cache/DebugBackend.php:20 | The default `$expire = Cache::PERMANENT` is resolved in namespace `Drupal\cache_debug\Cache`, which has no `use` statement for `Cache`. It names `Drupal\cache_debug\Cache\Cache`, a class the module does not define. | `set($cid, $data)` with `$expire` omitted: PHP evaluates the default, fails on the unknown class, and nothing is printed or stored. | `Drupal\Core\Cache\Cache::PERMANENT`, that is -1, as in the parent `MemoryBackend::set`. | medium; not executed | `PhpBackend.SetWithoutExpireFailsAsWritten` | `PhpBackend.Expire` |
