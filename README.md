# Template mutation engine of the MX template generator

This project models the core of an Express server that produces copies of
manufacturing-procedure templates. A template is a tree of nodes:
PROCEDURE, UNIT_PROCEDURE, OPERATION, PHASE, PHASE_STEP, SUB_PHASE_STEP.
Each node has `dataCaptureSteps` leaves.

The model covers these parts of `server.js`:

- the add-phase block of `POST /api/generate`. It reads the request and
  scans the whole document for its largest numeric `id`. It then builds a
  new PHASE sub-tree from a counter that starts above that id. Last, it
  splices the phase into the first OPERATION, right before the terminal
  phase (`phaseOrderNumber` 1000).
- the finalizer. It regenerates every `globalSerialId` and
  `localReferenceId` (`regenerateUUIDs`). It then adds the date suffix to
  the title and to `masterTemplateDetails.productId`.
- the structural validator `validateTemplateStructure`.
- the display-name mapping of `GET /api/templates`.

The template is an already-parsed JSON value: the `Json` datatype in
`json.dfy`, with integer numbers. Object fields stay in JavaScript
enumeration order. Token minting is a function `mint: nat -> string` read
from a position `n`, so "fresh" means "the next positions of the supply".
The date is a parameter.

Modules, one per component:

| file | module | what it holds |
|---|---|---|
| json.dfy | `Json` | JSON values, property access and assignment as JavaScript does them |
| finalize.dfy | `Finalize` | `regenerateUUIDs`, title and productId suffixes |
| maxid.dfy | `MaxId` | `findMaxId`, a method with the source's running maximum |
| factory.dfy | `Factory` | typed records for the new nodes and their JSON encoding |
| shape.dfy | `Shape` | the names, id ranges and step shapes of the construction |
| assemble.dfy | `Assemble` | the construction, as methods that thread the `currentId` counter |
| placement.dfy | `Placement` | the operation lookup, the new order number, `findIndex` and `splice` |
| request.dfy | `Request` | the two title regexes, `trim`, the keyword flags |
| validate.dfy | `Validate` | `validateTemplateStructure`, a method that accumulates errors |
| catalog.dfy | `Catalog` | the template list and its display names |
| generate.dfy | `Generate` | the handler's mutation and finalization, end to end |

Some behaviour of the code is easy to miss when reading it. The model
follows the code as written:

- A missing terminal phase is not reported as an error.
  `findIndex` returns -1, and `splice(-1, 0, x)` puts the phase before
  the last child, or alone into an empty list.
- There is no "notes" flag. WITNESS and VERIFY do not imply a data-entry
  step. Only "general text" or "phase step" asks for one.
- Without a data-entry step, WITNESS and VERIFY go on the ITERATION_REVIEW
  step. With one, only WITNESS is built (on the data-entry step) and a
  requested VERIFY is dropped.
- The title keeps a leading "called": "add a phase called QC with
  witness" gives the title "called QC".
- The counter builds the review step before the data-entry step. The ids
  therefore run phase, review step and its leaves, data-entry block, phase
  leaves. The children are still ordered `[dataEntry, review]`.
- The validator never looks below PHASE_STEP.
- Nothing checks that a baseline's ids are unique. The model proves that
  unique ids stay unique.

## Model

| member | source | states |
|---|---|---|
| Finalize.Regenerate | server.js:218-238 | every token field at any depth gets the next token of the supply, in traversal order; the document with tokens blanked (keys, key order, array lengths, every other value including numeric ids) is unchanged |
| Finalize.RegenerateItems | server.js:225-227 | an array is regenerated element by element, the elements taking consecutive runs of the supply |
| Finalize.RegenerateFields | server.js:229-237 | `globalSerialId` and `localReferenceId` take one fresh token each; every other key keeps its name and position and has its value regenerated |
| Finalize.RegeneratedTokensFresh | server.js:218-238 | with an injective supply the new tokens are pairwise distinct; with a supply that avoids the old tokens none of them comes back |
| MaxId.RegenerateKeepsIds | server.js:218-238 | regeneration leaves every numeric id in place and in order |
| Finalize.StampTitle | server.js:946-950 | a truthy title with a string form becomes that string followed by " (Generated D)"; a truthy title without one (an object with its own `toString` key, or an array holding such an object) is the TypeError; a missing or falsy title leaves the document as it was; no other key changes |
| Finalize.StampProductId | server.js:952-955 | when `masterTemplateDetails` and its `productId` are truthy, a productId with a string form gets "-GEN-D" appended and no other detail changes, and one without a string form is the TypeError; otherwise the document is unchanged |
| Finalize.FinalizeDocument | server.js:942-955 | the finalizer is regeneration, then the title stamp, then the productId stamp, using one supply position per token field; it throws exactly when the document is null or its truthy title or productId has no string form; for plain title and productId values the output holds exactly the next fresh tokens and is otherwise the stamped original |
| Finalize.FinalizedDocument | server.js:942-955 | for plain title and productId values, the finalized document holds exactly the next fresh tokens and is otherwise the stamped original |
| MaxId.Traverse | server.js:342-350 | the running maximum ends at least at its start and at every truthy numeric id in the value, nested triggers and actions included, and it is the start or one of those ids |
| MaxId.FindMaxId | server.js:340-354 | the result is at least 0, bounds every truthy numeric id of the document, and is 0 or one of them |
| Assemble.BuildReviewLeaves | server.js:403-498 | the review step's leaves are READY_FOR_REVIEW and COMPLETE, then WITNESS and VERIFY when asked for; they take consecutive ids and point at the review step |
| Assemble.BuildReview | server.js:374-512 | the ITERATION_REVIEW step takes the first id after the phase, has order 1000, no children and its leaves after it, and is linked to the phase |
| Assemble.BuildCorrection | server.js:516-617 | the CORRECTION sub-step (PRIMARY_DATA_ENTRY, order 1, parent and phaseStepId the data-entry id) takes one id, then its START, END and CANCEL leaves take three more |
| Assemble.GeneralTextLeaf | server.js:659-712 | the GENERAL_TEXT leaf, its trigger and its action take three consecutive ids; the trigger points at the leaf and the action at the trigger |
| Assemble.BuildDataEntry | server.js:514-750 | the DATA_ENTRY step takes 8 ids, or 9 with WITNESS; it has order 1, the RBE flag, a structureDisplay naming itself, the correction child and the GENERAL_TEXT leaf first |
| Assemble.PhaseLeaves | server.js:768-856 | the phase's four leaves are TRAINING_OVERRIDE, PHASE_COMPLETE_BUTTON, PREDECESSOR_OVERRIDE, STRUCTURE_COMPLETE on consecutive ids, owned by the phase |
| Assemble.BuildChildren | server.js:374-767 | the children are `[dataEntry, review]` with general text and `[review]` without; WITNESS and VERIFY go on the review step only without general text, and VERIFY is dropped with it |
| Assemble.BuildPhase | server.js:355-879 | the phase takes maxId+1 and its sub-tree takes the next 8+w+v ids (16+w with general text) in construction order; every back-link matches; the phase's parent is the operation id |
| Factory.AllocationOrderIsScanOrder | server.js:340-350 | the ids in the order the counter hands them out are the ids a scan of the new phase meets, each as often |
| Factory.EncodeIds | server.js:377-879 | the JSON form of a built node shows the max-id scan exactly the node's ids, and its token values are plain |
| Placement.MaxOrder | server.js:366-369 | the largest order among the PHASE children with order below 1000, or 0: it bounds each of them and is one of them or 0 |
| Placement.NewPhaseOrder | server.js:366-371 | the new order is one more than every counted order, between 1 and 1000, and is 1 or one more than an existing order |
| Placement.TerminalIndex | server.js:363-365 | the index of the first PHASE child whose order is exactly 1000, or -1 when there is none |
| Placement.Insert | server.js:882 | `splice(start, 0, x)` puts x at the clamped start index; earlier children stay put and later ones move up by one |
| Placement.InsertedBeforeTerminal | server.js:363-365 | the phase lands right before the first terminal phase; with none, before the last child, or alone in an empty list |
| Placement.BetweenPhaseAndTerminal | server.js:360-371 | children `[A(order 1), terminal]` become `[A, new, terminal]` and the new phase gets order 2 |
| Placement.InsertAdds | server.js:882 | the splice adds exactly the new phase and loses nothing |
| Placement.Children | server.js:360-369 | the operation is `children[0].children[0]`, found by position; a missing link or a null child is the exception the handler catches |
| Placement.RebuildIds | server.js:882 | replacing the operation's children in place swaps their ids and tokens for those of the new list and changes nothing else |
| Request.FirstMatch | server.js:319 | the regex match is the first candidate in the engine's order: leftmost start, greedy `\s+`, lazy group, followed by `\s+with` or the end |
| Request.TailIsRegexTail | server.js:319 | the tail test equals `\s+with` (some run of whitespace, then "with" in any case) or end of input |
| Request.Trim | server.js:327 | the trimmed title is a slice of the group with only whitespace cut from both ends, and it starts and ends with non-whitespace |
| Request.FindWord | server.js:330-335 | a keyword test holds exactly when the word occurs, ignoring case, with no word character before or after it |
| Request.Interpret | server.js:316-335 | a blank request asks for nothing; no match of either pattern is "not recognized"; otherwise the title comes from the first pattern, or else the second, trimmed; the four flags are the whole-word tests |
| Request.CalledStaysInTitle | server.js:319-327 | "add a phase called QC with witness" gives the title "called QC" with the witness flag set |
| Validate.ChildLevel | server.js:263-270 | only PROCEDURE, UNIT_PROCEDURE, OPERATION and PHASE have a level below them |
| Validate.ValidateNode | server.js:256-278 | the walk appends the node's own errors, then each child's in order, to the list it was given; a null node throws, and so does a message that prints a title or level without a string form |
| Validate.ValidateTemplate | server.js:241-291 | the result is the root checks' errors followed by the walk's, and `valid` holds exactly when there are none; a throw anywhere in the walk yields no report |
| Validate.ValidIffWellFormed | server.js:241-291 | the template is valid exactly when the root checks pass and every visited node has both tokens and its expected level |
| Validate.WrongRootLevelTwice | server.js:245-247 | a root that is not PROCEDURE is reported by the root check and again by the walk |
| Validate.PhaseStepChildrenIgnored | server.js:263-276 | the walk of a PHASE_STEP gives its own errors, or throws on its own fields alone: its children add no errors and cannot make it throw |
| Validate.ChildThrowPropagates | server.js:256-276 | a throw in any visited child is its parent's throw, and the errors collected so far are lost |
| Validate.ThrowsIffReachesFault | server.js:256-276 | the walk of a node throws exactly when it meets, at some depth it visits, a null node or a node whose error message would print a title or level without a string form |
| Validate.ReportThrowsIffFaultReached | server.js:241-291 | validation throws exactly when such a faulty node sits anywhere in the visited tree |
| Validate.UnprintableTitleThrows | server.js:256-258 | `{"title": {"toString": 0}}` gives no report: its missing-token message cannot print the title |
| Catalog.TemplateFiles | server.js:160-161 | the kept files are exactly the names ending in ".mt", and there are no more of them than files |
| Catalog.TemplateFilesInOrder | server.js:160-161 | the kept files are the ".mt" names in directory order: each comes from a later position than the one before, and none is skipped |
| Catalog.Listing | server.js:173-186 | each entry is a kept file with its id and display name |
| Catalog.ListingIsTemplateFiles | server.js:160-186 | every entry comes from a ".mt" file, and every ".mt" file gives an entry |
| Catalog.IdOfPlainName | server.js:174 | a name with ".mt" only at its end has its stem as id |
| Catalog.FirstExtensionRemoved | server.js:174 | only the first ".mt" goes: "a.mt.mt" lists as "a.mt" |
| Catalog.DerivedNameAt | server.js:175-179 | a derived name has one character per character of the id without its first "baseline-": separators become spaces, the first character and each one after a separator is upper-cased |
| Catalog.SplitJoinIsTitleCase | server.js:176-179 | split, capitalize and join equals character-wise title casing, empty pieces included |
| Catalog.DisplayNames | server.js:164-179 | `nameMap[id] \|\| derived` is the fixed name whenever the id has one, since no fixed name is empty, and the derived name otherwise |
| Generate.Generate | server.js:316-971 | a blank request leaves the document as it was; an unrecognized request does too; a failed lookup does too; otherwise the phase the request describes (title, flags, RBE flag, children and sign-offs) is built from fresh ids and spliced in. The result is then finalized, and the failure response comes exactly when the document is null or its truthy title or productId has no string form |
| Generate.Splice | server.js:357-882 | the phase the request describes, built from fresh ids, is spliced into the operation's children at the terminal index, or the lookup fails and nothing changes |
| Generate.NewPhase | server.js:354-879 | the new phase has the requested title, children, sign-offs and RBE flag, and its ids start right above the document's largest id |
| Generate.PlacedIds | server.js:882 | after the splice the document holds exactly its old ids plus the new range |
| Generate.FreshIdsStayUnique | server.js:354-375 | ids above every old one, taken from one range, keep unique ids unique |
| Generate.FinalizeKeepsIds | server.js:942-955 | finalization keeps every numeric id |
| Generate.GeneratedIdsUnique | server.js:340-955 | the finalized document of an added phase holds the old ids plus the new range, each once, when the baseline's ids were unique |

## Left out

- HTTP routing, middleware, cache headers, file reads, `JSON.parse`,
  `res.json`, the response's file name and `app.listen` are left out. The
  engine works on an already-parsed template.
- The generative-model client, its prompt and the disabled `if (false && …)`
  branch are left out. That code never runs.
- `uuidv4` is an abstract supply `mint`. Distinct and fresh tokens are
  hypotheses of `Finalize.RegeneratedTokensFresh`.
- The date comes in as a string. `toISOString` is not modelled.
- The constant default fields of each new record are not modelled. These
  are empty arrays and false flags. The encoding keeps the structural
  fields only, and in its own fixed order.
- Console logging is left out. An exception from the add-phase block is
  the `Failed` outcome, which leaves the document unchanged.
- Numbers are integers. Floating-point ids and order numbers are not
  modelled.
- Generate.FreshIdsStayUnique: ids are unbounded integers. JavaScript
  numbers count exactly only below 2^53, so `maxId + 1` and each
  `currentId++` can round once a document holds an id of 2^53 - 17 or
  more. Then new ids can repeat `maxId` or each other. The same bound
  applies to Generate.GeneratedIdsUnique, Generate.FreshPhase,
  Assemble.BuildPhase and MaxId.FindMaxId; their claims hold for
  documents whose ids stay below 2^53 - 17.
- Finalize.IntToString: a number is printed in plain decimal. JavaScript
  prints exponent notation from 1e21 on, for example in a stamped title
  or productId.
- Finalize.RegenerateFields: a key named `__proto__` is kept like any
  other key. JavaScript's `newObj[key] = …` runs the `Object.prototype`
  setter for it, so that field and every id under it vanish from the
  output. Generate.GeneratedIdsUnique's "old ids survive" holds only for
  documents without such a key.
- Placement.OrderValue: a `phaseOrderNumber` held as a string or an array
  is not counted. JavaScript would coerce it to a number. On a PHASE child,
  an object `phaseOrderNumber` with its own `toString` key makes `< 1000`
  throw in JavaScript, and the add-phase catch then leaves the document
  unchanged. The model does not count that child and adds the phase.
- Placement.First: `x.children[0]` is read from arrays only. An object
  with a key "0" under `children` would also answer in JavaScript; the
  model treats it as a failed lookup.
- Catalog.DisplayName: an id naming a member of `Object.prototype` (such
  as "constructor") is not modelled. JavaScript would use the inherited
  member in place of the derived name.
- Catalog.Upper: upper-casing covers ASCII letters only. Unicode
  `toUpperCase` is not modelled.
- The end-to-end claim "every generated document passes the validator" is
  not proved. It would need the minted tokens to be non-empty, and the
  source never validates its own output.
