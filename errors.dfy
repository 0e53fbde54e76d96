/** `_renameErrors` (index.js:92-97): the parser's error list, stored under
    the key `"(errors)"` that templates cannot address, moves to `errors`. */
module Errors {

  import opened JsValues
  import opened Raml

  /** `errors` takes the value of `"(errors)"` and `"(errors)"` is cleared;
      nothing else changes. */
  method RenameErrors(doc: Document)
    modifies doc`errors, doc`errorsAnnotation
    ensures doc.errors == old(doc.errorsAnnotation) && doc.errorsAnnotation.None?
  {
    doc.errors := doc.errorsAnnotation;
    doc.errorsAnnotation := None;
  }
}
