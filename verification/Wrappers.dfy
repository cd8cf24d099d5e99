/**
 Optional values, used wherever the source uses std::optional, a null pointer or a thrown conversion error, and how a
 file is written.
 */
module Wrappers {
  datatype Option<+T> = None | Some(value: T)

  /** A write of a small file: it works, it fails and leaves no file, or the file cannot even be opened. */
  datatype Saving = Saved | Lost | Untouched

  function Min(a: int, b: int): int {
    if a <= b then a else b
  }

  function Max(a: int, b: int): int {
    if a <= b then b else a
  }
}
