/**
 * The browser's `localStorage` as seen by the two stores: one JSON blob per key
 * (`financialProducts`, `queryRecords`), each holding the whole list. The blob is
 * modelled as a ghost mirror of the list; `None` means the key was never written.
 */
module Storage {
  import opened Wrappers

  /** The persisted blob agrees with the in-memory list. */
  ghost predicate Mirrors<T>(saved: Option<seq<T>>, items: seq<T>) {
    match saved
    case None => items == []
    case Some(s) => s == items
  }

  /** The list a store starts from: the saved blob if there is one, else empty. */
  function Load<T>(saved: Option<seq<T>>): seq<T>
  {
    saved.GetOr([])
  }
}
