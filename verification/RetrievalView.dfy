/** The view that searches read: live rows of the searchable generation, with the document's
    current permissions laid over the stored ones. */
module RetrievalView {
  import opened IngestTables

  /** The document row joined to a vector row, if there is one. */
  predicate Joined(s: State, row: VectorRow) {
    row.documentId in s.documents && s.documents[row.documentId].tenantId == row.tenantId
  }

  predicate Removed(s: State, row: VectorRow) {
    row.documentId in s.deletedDocuments && s.deletedDocuments[row.documentId] == row.tenantId
  }

  predicate Exposed(s: State, row: VectorRow) {
    && (row.generationId.None? || (Joined(s, row) && s.documents[row.documentId].activeGeneration == row.generationId))
    && !Removed(s, row)
  }

  function Overlay(s: State, row: VectorRow): VectorRow {
    if !Joined(s, row) then row
    else
      var permissions := s.documents[row.documentId].permissions;
      row.(scope := permissions.scope, payload := row.payload.(permissions := permissions))
  }

  function View(s: State): map<Id, VectorRow> {
    map c | c in s.vectors && Exposed(s, s.vectors[c]) :: Overlay(s, s.vectors[c])
  }

  /** The rows of one document that a search can return. */
  function Searchable(s: State, tenantId: Id, d: Id): map<Id, VectorRow> {
    map c | c in View(s) && !View(s)[c].deleted && View(s)[c].documentId == d && View(s)[c].tenantId == tenantId :: View(s)[c]
  }

  /** The rows of the chunks table for one document. */
  function ChunksOf(s: State, tenantId: Id, d: Id): map<Id, ChunkRow> {
    map c | c in s.chunks && s.chunks[c].documentId == d && s.chunks[c].tenantId == tenantId :: s.chunks[c]
  }
}
