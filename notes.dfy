/** The note and tag records the screens receive from the notes service. */
module Notes {
  import opened Base
  import opened Dates

  /** A note; every field the service may leave unset is optional. */
  datatype Note = Note(id: string, content: Option<string>, tags: Option<seq<string>>, createdAt: Option<Timestamp>)

  /** A tag with the number of notes that carry it. */
  datatype Tag = Tag(id: string, name: string, count: int)
}
