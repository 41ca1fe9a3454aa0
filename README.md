# Weekly meal planner — verified model of its state rules

The meal planner keeps one JSON document, `{recipes, plan, grocery}`, in a
file on the server, and exposes it through six HTTP handlers. Three reads (recipes, plan, grocery
list) only load the document, creating the default file on first use. Three
writes (add a recipe, replace the plan, replace the grocery list) validate
the body, return early on a bad one, load, change one field and save. A React page edits the three collections.

This project models the parts of that system that carry logic:

- `server.dfy` (module `Server`) models the server's document state machine.
  - The file is an `Option<Document>` field of a `Store` class. `None` means
    `data.json` does not exist yet.
  - `Load` writes the default document when there is no file.
  - Each POST handler is a method that validates, returns early on a bad
    body, loads, changes one field and saves. Each GET handler only loads.
  - Each handler is specified by a pure function from the old file and the
    request to the new file and the reply (`AddRecipe`, `SetPlan`,
    `SetGrocery`).
  - `Run` folds those functions over any sequence of API calls. The lemmas
    about `Run` state what holds across calls: recipes only grow, and recipe
    ids stay distinct when `nanoid()` never repeats.
- `client.dfy` (module `Client`) models the browser-side value transforms:
  - tag parsing;
  - the recipe meta line;
  - the planner's per-day update and the value its selector holds;
  - the grocery editor's add, edit and remove;
  - the recipe form's initial and reset state.

  The grocery editor's local list and the recipe form's inputs are small
  classes whose fields the handlers reassign, as the `useState` setters do.
- `js.dfy` (module `Js`) holds the JavaScript semantics both sides rely on:
  - JSON values and ECMAScript truthiness (`!x`);
  - destructuring defaults, which apply to a missing property but not to
    `null`;
  - `Array.isArray`;
  - `String.prototype.trim` with the ECMAScript white-space set;
  - `split` on one character and `join`.

`nanoid()` and `crypto.randomUUID()` are parameters (`id`). That they never
repeat is a hypothesis of the lemmas that need it (`FreshIds`, `IdUnused`).

Add-recipe tests JavaScript truthiness (server/index.js:43), not
non-emptiness. So it also rejects `0`, `false` and `null`, and it accepts any
truthy value, such as a number or an object. `Server.AddRecipe` states
exactly that. Likewise, set-plan accepts any truthy `plan`, such as a string
or a number, and stores it as it is (server/index.js:67-69).

The form's checkboxes start ticked (`true`), while the server defaults an
omitted `kidFriendly` or `glutenFree` to `false`. Both defaults are modelled
as written: `Client.RecipeForm.constructor` and `Server.RecipeFromFields`.
The form always sends both flags, so the server default applies only to
other clients.

## Model

| member | source | states |
|---|---|---|
| `Server.DefaultDocumentShape` | server/index.js:9-23 | the first document has no recipes, an empty grocery list, and a plan with exactly the keys Sun, Mon, Tue, Wed, Thu, each mapped to `[]` |
| `Server.LoadedOfLoaded` | server/index.js:9-26 | loading gives the stored document when the file exists and the default one otherwise; loading a loaded file gives it back unchanged, so reads change nothing after the first |
| `Server.RecipeFromFields` | server/index.js:42-54 | the new record carries the generated id and the title and url as sent; each optional field is the sent value when the body has the key (null included), else tags `[]`, notes and protein `""`, kidFriendly and glutenFree `false` |
| `Server.AddRecipe` | server/index.js:41-58 | rejected exactly when title or url is missing or falsy, with "title and url required" and the file untouched (not even created); otherwise recipes become the old recipes plus the new one at the end, plan and grocery are unchanged, and the reply is the stored record |
| `Server.AddRecipeKeepsIdsDistinct` | server/index.js:46-55 | adding a recipe whose id is not already stored keeps recipe ids pairwise distinct |
| `Server.SetPlan` | server/index.js:65-72 | rejected exactly when `plan` is missing or falsy, with "plan required" and the file untouched; otherwise the plan is replaced wholesale by the sent value, recipes and grocery are kept, and the reply is the sent plan |
| `Server.SetPlanThenGetPlan` | server/index.js:60-72 | after an accepted set-plan, the stored plan, and so the next get-plan, is exactly the sent plan; recipes and grocery are as before |
| `Server.GroceryOf` | server/index.js:74-77 | the grocery read answers `[]` when the field is absent or falsy and the stored value otherwise; the answer is never falsy |
| `Server.SetGrocery` | server/index.js:79-86 | rejected exactly when `items` is not an array, with "items array required" and the file untouched; otherwise grocery becomes exactly `items`, recipes and plan are kept, and the reply is `items` |
| `Server.SetGroceryThenGetGrocery` | server/index.js:74-86 | after an accepted set-grocery the next grocery read answers exactly the sent list (the empty list included); recipes and plan are as before |
| `Server.StepRecipes` | server/index.js:36-86 | one API call keeps the stored recipes as a prefix and adds no id other than that call's own |
| `Server.RunKeepsRecipes` | server/index.js:36-86 | across any sequence of calls the recipes only grow: earlier recipes stay, in place, at the head of the list |
| `Server.RunKeepsIdsDistinct` | server/index.js:41-58 | if every id generated by an accepted add-recipe call is fresh, recipe ids stay pairwise distinct across any sequence of calls |
| `Server.Store.constructor` | server/index.js:7 | the store starts from the given file contents, or from no file |
| `Server.Store.Load` | server/index.js:9-26 | writes the default document when there is no file, then returns the file's document |
| `Server.Store.Save` | server/index.js:28-30 | overwrites the whole file with the given document |
| `Server.Store.GetRecipes` | server/index.js:36-39 | answers the stored recipes; the file becomes the loaded document and is otherwise unchanged |
| `Server.Store.PostRecipe` | server/index.js:41-58 | the new file and the reply are those of `AddRecipe`; distinct ids stay distinct when the id is fresh |
| `Server.Store.GetPlan` | server/index.js:60-63 | answers the stored plan; the file becomes the loaded document and is otherwise unchanged |
| `Server.Store.PostPlan` | server/index.js:65-72 | the new file and the reply are those of `SetPlan` |
| `Server.Store.GetGrocery` | server/index.js:74-77 | answers the stored grocery list, or `[]` when it is absent; the file becomes the loaded document and is otherwise unchanged |
| `Server.Store.PostGrocery` | server/index.js:79-86 | the new file and the reply are those of `SetGrocery` |
| `Server.SetPlanThenRead` | server/index.js:60-72 | on the store, a set-plan is accepted exactly when `plan` is truthy; then the following get-plan answers the sent plan, and after a rejection it answers the old plan |
| `Js.TrimStartCuts` | src/App.jsx:22 | the leading cut leaves a suffix of the input that is empty or starts with a non-space, and everything cut is white space |
| `Js.TrimEndCuts` | src/App.jsx:22 | the trailing cut leaves a prefix of the input that is empty or ends with a non-space, and everything cut is white space |
| `Js.TrimEmptyOrClean` | src/App.jsx:22 | `trim` gives the empty string exactly for an all-white-space string, and otherwise a string with no white space at either end |
| `Js.TrimIsSlice` | src/App.jsx:22 | what `trim` leaves is a contiguous slice of the input with only white space cut on each side |
| `Js.Split` | src/App.jsx:22 | `split(',')` gives one more piece than there are commas; no piece holds a comma, and joining the pieces with commas gives the input back |
| `Js.SplitJoin` | src/App.jsx:22 | splitting a comma-joined list of comma-free pieces gives the list back |
| `Client.TrimAll` | src/App.jsx:22 | `map(t => t.trim())` keeps the number of pieces |
| `Client.TrimAllAt` | src/App.jsx:22 | each mapped piece is the trim of the piece at the same place |
| `Client.NonEmpty` | src/App.jsx:22 | `filter(Boolean)` keeps only non-empty strings, each one that occurs, in their order, as a sub-list; a list without empty strings is kept whole |
| `Client.NonEmptyCounts` | src/App.jsx:22 | filtering keeps every copy of every non-empty string and drops every empty one: the kept multiset is the input's with `""` removed |
| `Client.ParseTags` | src/App.jsx:22 | every parsed tag is non-empty, comma-free and has no white space at either end; tags keep input order, as a sub-list of the trimmed pieces; there are at most one more tags than commas |
| `Client.ParseTagsCounts` | src/App.jsx:22 | each non-empty trimmed piece becomes a tag as often as it occurs, so a repeated tag is kept |
| `Client.ParseTagsEmpty` | src/App.jsx:22 | no tags come out exactly when the field holds only white space and commas, the empty field included |
| `Client.ParseTagsRoundTrip` | src/App.jsx:22 | joining clean tags with commas and parsing gives the same tags in the same order |
| `Client.MetaLineJoinsPresentParts` | src/App.jsx:49 | the meta line is the " · " join of the protein if it is non-empty, then "GF" if gluten-free, then "Kid" if kid-friendly, with no empty part |
| `Client.MetaLineEmpty` | src/App.jsx:49 | the meta line is empty exactly when there is no protein and neither flag is set |
| `Client.Chosen` | src/App.jsx:70 | `e.target.value \|\| null`: the empty option means no recipe, any other option that recipe id |
| `Client.SetDay` | src/App.jsx:59-62 | the chosen day holds `[id]` for a non-empty id and `[]` for none or an empty id; every other day of the plan is unchanged and no key is dropped |
| `Client.Shown` | src/App.jsx:70 | the selector's `value` is the day's first id, or `""` when the day is missing or its list is empty |
| `Client.ShownAfterChoice` | src/App.jsx:59-70 | after choosing an option for a day, that day's selector value is that option |
| `Client.ShownOnOtherDays` | src/App.jsx:59-70 | choosing for one day leaves every other day's selector value as it was |
| `Client.AddItem` | src/App.jsx:85 | the list grows by exactly one; the old lines are kept, unchanged and in order; the new last line is the given id with text `""` and done `false`; fresh ids keep the ids distinct |
| `Client.UpdateItem` | src/App.jsx:86 | the length, the order and every id are kept; lines with another id are unchanged; lines with that id change only in the patched fields |
| `Client.RemoveItem` | src/App.jsx:87 | no line with that id is left; a list without that id is returned unchanged |
| `Client.RemoveItemKeepsOthers` | src/App.jsx:87 | the remaining lines are those with another id, in their original relative order |
| `Client.RemoveItemCounts` | src/App.jsx:87 | every copy of every line with another id is kept and every line with that id is dropped: the count of each line is its old count, or 0 for that id |
| `Client.TextEditChangesOnlyText` | src/App.jsx:86-93 | the text input's patch sets the text of the lines with that id and changes no done flag, no id and no other line |
| `Client.DoneEditChangesOnlyDone` | src/App.jsx:86-94 | the checkbox's patch sets the done flag of the lines with that id and changes no text, no id and no other line |
| `Client.UpdateItemKeepsIdsDistinct` | src/App.jsx:86 | editing keeps distinct line ids distinct |
| `Client.RemoveItemKeepsIdsDistinct` | src/App.jsx:87 | removing keeps distinct line ids distinct |
| `Client.RemoveAfterAdd` | src/App.jsx:85-87 | removing a line just added under a fresh id gives back the list from before the addition |
| `Client.GroceryEditor.constructor` | src/App.jsx:83 | the local list starts as the list passed in |
| `Client.GroceryEditor.Add` | src/App.jsx:85 | "Add item" makes the local list `AddItem` of the old one: one blank line more at the end |
| `Client.GroceryEditor.Update` | src/App.jsx:86 | an edit makes the local list `UpdateItem` of the old one |
| `Client.GroceryEditor.Remove` | src/App.jsx:87 | the "x" button makes the local list `RemoveItem` of the old one, with no line of that id left |
| `Client.GroceryEditor.Save` | src/App.jsx:100 | "Save list" hands over the local list as it is |
| `Client.Submission` | src/App.jsx:22 | the submitted recipe holds the inputs as they are, and its tags are clean tags |
| `Client.RecipeForm.constructor` | src/App.jsx:12-18 | the form starts with every text input `""` and both checkboxes `true` |
| `Client.RecipeForm.Change` | src/App.jsx:29-35 | an input's change handler sets that input's value and no other |
| `Client.RecipeForm.Submit` | src/App.jsx:20-30 | with an empty title or url the browser blocks the submit and nothing changes; otherwise the form sends its values with parsed tags and returns to exactly the initial state |

## Left out

- File I/O: `existsSync`, `readFileSync`, `writeFileSync` and the pretty-printed JSON text are replaced by the in-memory `Store.file`. Saving then loading is taken to give back the same document. JSON's number precision, `-0` and key order are not modelled.
- A `data.json` that does not parse makes `loadData` throw. Express then answers that request with status 500, and the process keeps running. This hits every GET, and every POST whose body passes validation; a POST rejected with 400 never loads. If `recipes` is not an array, only an accepted add-recipe fails, with a 500 from `push` (server/index.js:55), and GET /api/recipes still answers with whatever is stored. None of this is modelled: the stored document always has a list of recipes and a plan.
- Express, cors, the JSON body parser, HTTP status codes, the static bundle and `listen`/`PORT` are framework glue and are not modelled. A request body is a map from property name to JSON value, and a missing body is the empty map.
- `nanoid()` and `crypto.randomUUID()` are not modelled. Their results are parameters, and their freshness is a hypothesis.
- `fetchJSON`, `Promise.all`, the page's initial load, and the optimistic `setPlan`/`setGrocery` before the POST are network I/O and async sequencing. They are not modelled.
- React rendering, JSX, the `useEffect` that re-syncs the grocery editor from its props, and the recipe list's click handler are not modelled. The click handler does nothing.
- Write races between requests (last writer wins) are not modelled. The server has no concurrency control, and each handler is modelled as one atomic step.
- `Js.Split`: models only `split` on a one-character separator, the only form the page uses.
- `Client.MetaLine`: models the meta line only for a string protein and boolean flags, the values the recipe form sends. A recipe stored by another client may hold any JSON there. For those, `filter(Boolean)` would also drop a `null`, `0` or `false` protein, any truthy flag would show its label, and `join` would turn a number into text. None of that is modelled.
- `Client.SetDay`: models the plan only as a map from day name to a list of string ids, the shape the planner itself sends. Set-plan stores any truthy JSON. A day holding a string such as "r1" would make the selector's `value` its first character, "r", and that is not modelled.
- `Client.Shown`: models the select's `value` prop, not the option the page displays. When that value matches no recipe, for example an id left in the plan after set-plan stored an arbitrary plan, the browser shows the first option ("-- choose --"); that is not modelled. As with `Client.SetDay`, only a plan of string-id lists is modelled.
- `Client.Item`: grocery lines are modelled as `{id, text, done}` with a string, a string and a boolean, the shape the editor creates. Set-grocery accepts any array. An editor loaded with other element shapes is not modelled.
