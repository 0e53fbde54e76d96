# raml2obj enrichment passes in Dafny

raml2obj turns a RAML API description into a plain object tree for
templates. After the RAML parser has produced the document, `index.js`
enriches it in place with five passes, which `_enhanceRamlObj` runs in a
fixed order:

1. the base URI gets its `{version}` placeholder filled in;
2. the resource tree is walked depth-first: every resource gets its parent's
   URL, an identifier made of word characters, a relative URI without the
   parser's disambiguation digit, and a new list of all URI parameters that
   apply to it (inherited ones first), which all of its methods share;
3. every top-level documentation chapter gets an identifier derived from its
   title;
4. every schema text is decoded into `parsedSchemas`;
5. the `"(errors)"` annotation is moved to `errors`.

The model keeps the program's own form. The string rules (`_ltrim`,
`_makeUniqueId` and the regular-expression rewrites) are pure functions over
`seq<char>`, with `\w`, `\s`, `String.prototype.indexOf` and the
`$`-pattern expansion of `String.prototype.replace` written out. The
document is a set of classes whose fields the passes assign:

- `Document`, `Resource`, `Method`, `Param` and `DocSection`;
- `ParamList`, the JavaScript array that a resource and its methods hold by
  reference.

Each pass is a method proved against specification functions or
predicates. The walk, the chapter pass and the schema pass loop over their
collections; `ParseBaseUri` and `RenameErrors` are single assignments
without loops, as in the source. The walk is specified against a ghost snapshot of the relative
URIs and display names the parser left in the tree. The JSON decoder is a
function parameter that either yields a value or fails. A failure is the
exception that ends the pipeline in the schema pass.

Files:

- `values.dfy`: options, results, decoded values, objects as ordered
  dictionaries;
- `text.dfy`: JavaScript string primitives;
- `naming.dfy`: the walk's string rules;
- `model.dfy`: the document classes and their tree invariant;
- `walk.dfy`: the resource walk;
- `base_uri.dfy`, `docs.dfy`, `schemas.dfy`, `errors.dfy`: the other four
  passes;
- `enhance.dfy`: the pipeline.

## Model

| member | source | states |
|---|---|---|
| JsValues.AssignLookup | index.js:85 | after `m[k] = v`, reading `k` gives `v` and reading any other key gives what it gave before |
| JsValues.AssignKeysUnique | index.js:85 | assigning a key never duplicates a key; the object grows by one entry exactly when the key is new |
| JsText.ReplaceNonWord | index.js:26 | `replace(/\W/g, c)` keeps the length, keeps every `[A-Za-z0-9_]` character and turns every other character into `c` |
| JsText.IndexOf | index.js:13 | the position found holds the pattern and no earlier position from the start point does; "not found" means no position holds it |
| JsText.ReplaceFirst | index.js:13 | a string pattern replaces only its first occurrence, by the replacement with `$` patterns expanded; without an occurrence the string is unchanged |
| JsText.ReplaceFirstLiteral | index.js:13 | a replacement without `$` is inserted literally in place of the first occurrence |
| JsText.OccurrenceShifted | index.js:13 | replacing one occurrence keeps every later occurrence, moved by the change in length |
| Naming.LTrim | index.js:19-22 | the result is a suffix of the input; every removed character is one of the trimmed ones; the result does not start with one |
| Naming.UniqueIdShape | index.js:24-27 | the identifier is the full URL, from its first word character other than `_` on, with every non-word character mapped to `_`; everything before that position is a non-word character or `_` |
| Naming.UniqueIdIsWord | index.js:24-27 | the identifier holds only word characters and never starts with `_` |
| Naming.UniqueIdCollides | index.js:24-27 | two URLs that agree at their word characters and have non-word characters at the same places get the same identifier |
| Naming.FindPlaceholder | index.js:37 | the regular-expression search returns the leftmost match of `\{([^0-9]+)[0-9]\}` and its digit position, or reports that there is none |
| Naming.StripUriDigit | index.js:37 | the digit of the first `{name1}`-shaped placeholder is dropped and nothing else changes; without such a placeholder the relative URI is unchanged |
| Naming.StripDisplayNameDigit | index.js:48 | the last character is dropped exactly when the whole name is one or more non-digits followed by one digit; otherwise the name is unchanged |
| Naming.StripDisplayNameIdempotent | index.js:48 | stripping a stripped name changes nothing, so a parameter object visited twice ends as if visited once |
| Raml.ParamList.Push | index.js:49 | `push` appends one element |
| Raml.ParamList.PushAll | index.js:42 | `push.apply` appends the given elements in order |
| ResourceWalk.NameResource | index.js:35-37 | the resource gets the parent URL, the identifier computed from the parser's relative URI before it is rewritten, and the rewritten relative URI |
| ResourceWalk.CollectUriParameters | index.js:45-52 | the list grows by the declared parameters in order, and each display name is the stripped form of the parser's name |
| ResourceWalk.ShareListWithMethods | index.js:54-60 | every method holds the resource's list itself |
| ResourceWalk.AttachList | index.js:39-60 | the resource gets a new list holding the inherited parameters followed by its own, and its methods share it |
| ResourceWalk.EnrichResource | index.js:35-60 | one resource gets its parent URL, identifier, rewritten relative URI, stripped display names and a new shared list that is none of the document's original objects |
| ResourceWalk.Visit | index.js:33-62 | a visited subtree is placed under its parent URL and inherited list, every resource of it is walked, and its root's list is new |
| ResourceWalk.VisitAt | index.js:31-64 | visiting one sibling places it and leaves the siblings before it placed and those after it as the parser left them |
| ResourceWalk.KeepOthers | index.js:31-64 | walking one sibling's subtree changes nothing in the other siblings' subtrees or lists |
| ResourceWalk.TraverseAll | index.js:29-67 | every resource of a list of siblings is placed under the given parent URL and inherited list, and its subtree is walked |
| ResourceWalk.JoinWalked | index.js:62 | a walked resource whose children are walked and placed under its URL and list makes a walked subtree |
| ResourceWalk.Traverse | index.js:29-67 | every top-level resource gets the empty parent URL and a list holding just its own parameters, and every tree is walked against the values the parser left |
| ResourceWalk.WalkedResource | index.js:35-62 | in a walked tree every resource has a word-only identifier from its un-rewritten relative URI, the rewritten relative URI and stripped display names; methods share its list; each child's parent URL is this resource's URL with the rewritten relative URI, and the child's list is this resource's list followed by the child's own parameters |
| BaseUri.NormalizedBaseUri | index.js:12-13 | an absent or empty base URI stays; otherwise the first `{version}` is replaced by the version text, and a base URI without one stays |
| BaseUri.ParseBaseUri | index.js:9-17 | the document's base URI becomes its normalized form |
| BaseUri.VersionInserted | index.js:13 | a version without `$` replaces the first `{version}` literally |
| BaseUri.LaterPlaceholderKept | index.js:13 | for every version, a `{version}` after the first one is still in the result, moved by the inserted text's length minus the placeholder's |
| BaseUri.MissingVersion | index.js:13 | a document without a version gets the text `undefined` in place of the placeholder |
| DocIds.DocId | index.js:74 | a chapter's identifier is as long as its title, agrees with it at word characters and is `-` everywhere else |
| DocIds.AddUniqueIdsToDocs | index.js:69-79 | every top-level chapter gets the identifier of its title |
| DocIds.DocIdIdempotent | index.js:74 | an identifier is its own identifier |
| DocIds.DocIdCollides | index.js:74 | titles that differ only in their non-word characters get the same identifier |
| Schemas.FillSucceeds | index.js:83-87 | the pass succeeds exactly when every schema text decodes |
| Schemas.FillAppend | index.js:83-87 | decoding two runs of entries decodes the first, then the second unless the first failed |
| Schemas.FillKeeps | index.js:82-86 | a name no group mentions keeps its old entry, or stays absent |
| Schemas.UnnamedKept | index.js:82-86 | over the whole pass, a name no group mentions keeps its entry of the existing table, and stays absent when there was no table |
| Schemas.FillLastWins | index.js:83-86 | after a successful pass a name holds the decoded text of its last occurrence, so later groups override earlier ones |
| Schemas.FailureAt | index.js:85 | a failing pass stops at the first text that does not decode, reports that text's error, and keeps every assignment made before it |
| Schemas.FillKeysUnique | index.js:85 | the table never gets a duplicate name |
| Schemas.ParseGroup | index.js:84-86 | one group's entries are decoded and assigned in order until one fails |
| Schemas.ParseSchemas | index.js:81-90 | the table becomes the initial table with every group's entries decoded and assigned in order; a failure is returned with the table as filled so far |
| Errors.RenameErrors | index.js:92-97 | `errors` becomes the old `"(errors)"` value, whatever it held before, and `"(errors)"` is cleared |
| Enhance.AfterWalk | index.js:102-104 | the chapter identifiers are set, then schemas are decoded, and errors are moved only if decoding succeeded |
| Enhance.KeepPlaced | index.js:101-104 | the passes after the walk, which assign only to the document and its chapters, leave the walked trees as they were |
| Enhance.EnhanceRamlObj | index.js:99-105 | the pipeline's final state is the normalized base URI, the walked trees, the chapter identifiers and the decoded schemas; the errors are moved exactly when no schema failed |

## Left out

- `_sourceToRamlObj` and `parse` (index.js:107-136) are not modelled. They
  load the document from a file, a URL, a string or a buffer through the
  RAML parser, and chain promises. The model starts from the parsed
  document.
- `JSON.parse` is a parameter (`decode`). The JSON grammar is not modelled;
  only success or failure with a message matters to the pass.
- Object keys are visited in the order of the sequences holding them: URI
  parameters, methods, schema groups and their entries. JavaScript's
  `for…in` order is not modelled: integer-like keys first, then the rest in
  insertion order. Inherited enumerable keys are not modelled either; neither
  the schema loop over groups at index.js:83 nor the loop over a group's
  entries at index.js:84 has a `hasOwnProperty` check.
- Fields the passes read are assumed to hold strings: `relativeUri`,
  `displayName`, `title` and the schema texts. A missing `relativeUri`,
  `displayName` or `title` makes the JavaScript throw a `TypeError`. A
  missing schema text makes `JSON.parse` throw a `SyntaxError`, and a
  non-string one is converted to a string before decoding, so a number
  decodes. None of these cases is modelled. An absent `version` is
  modelled (it is inserted as `undefined`). A `null` version, which
  `replace` inserts as `null`, and a numeric version are not.
- `_ltrim` builds its regular expression from `chr`. Only a `chr` without
  regular-expression metacharacters is modelled. The walk uses `_`, and
  `\s` is used when no `chr` is given.
- Characters are Unicode scalar values. JavaScript strings are UTF-16 code
  units, so `\W` turns one astral character into two replacement characters
  in JavaScript but into one in the model.
- `parsedSchemas` is a value in the model. If another object held the same
  JavaScript object, it would see the assignments; that aliasing is not
  modelled.
- The resource tree must not share objects between resources (`Resource.Valid`).
  The parser produces a tree. With a shared parameter object, the JavaScript
  strips its display name twice, which is harmless because stripping is
  idempotent (`Naming.StripDisplayNameIdempotent`). The model does not cover
  such documents otherwise.
- ResourceWalk.Traverse: the lists the walk creates are only stated to be
  none of the document's original objects. The source also makes every
  resource's list a distinct new array, but the model does not state that
  two resources' lists differ. Only the list of the resource being visited
  is stated `fresh` (`ResourceWalk.Visit`).
- Enhance.EnhanceRamlObj: `"(errors)"` set to `undefined` is modelled as an
  absent value. The key staying on the object with an `undefined` value is
  not distinguished.
