/** Values shared by the whole control: the tag record and an optional value. */
module Types {

  /** A value that may be absent (TypeScript's `T | null` / `T | undefined`). */
  datatype Option<+T> = None | Some(value: T)

  /** A tag: its name, and the numeric id that only dataset tags carry. */
  datatype Tag = Tag(name: string, id: Option<int>)

  /** The record `{ name }` that a typed-in commit appends: it has no id. */
  function NewTag(name: string): (t: Tag)
    ensures t.name == name && t.id.None?
  {
    Tag(name, None)
  }
}
