/** The two persisted entities, as the store returns them. Timestamps are the
    store's `CURRENT_TIMESTAMP` text, supplied as a clock parameter. */
module Records {
  import opened Wrappers

  datatype Collection = Collection(
    id: int,
    name: string,
    description: Option<string>,
    createdAt: string,
    updatedAt: string)

  datatype Diagram = Diagram(
    id: int,
    collectionId: int,
    name: string,
    content: string,
    createdAt: string,
    updatedAt: string)
}
