/** Who may see a row: the access rule applied in Python, and the SQL condition it is pushed down to. */
module Access {
  import opened Prelude

  datatype Role = Admin | Member | Viewer

  /** The permission fields of a payload; any of them can be missing. */
  datatype Payload = Payload(
    documentId: Option<string>, scope: Option<string>, userId: Option<string>, visibility: Option<string>,
    aclUserIds: Option<seq<string>>)

  /** A row of the retrieval view: two columns beside the payload they were copied from. */
  datatype Row = Row(documentId: string, scope: string, payload: Payload)

  /** The access rule bound to one principal, optionally narrowed to chosen documents. */
  datatype AccessFilter = AccessFilter(userId: string, role: Role, documentIds: Option<set<string>>)

  predicate CanView(payload: Payload, userId: string, role: Role) {
    || payload.scope == Some("global")
    || role == Admin
    || payload.userId == Some(userId)
    || payload.visibility == Some("tenant")
    || (payload.visibility == Some("shared") && payload.aclUserIds.Some? && userId in payload.aclUserIds.value)
  }

  predicate Admits(access: AccessFilter, payload: Payload) {
    && (access.documentIds.Some? ==> payload.documentId.Some? && payload.documentId.value in access.documentIds.value)
    && CanView(payload, access.userId, access.role)
  }

  // ---------------------------------------------------------------- SQL

  /** SQL truth values; WHERE keeps a row only when the condition is True. */
  datatype Truth = True | False | Unknown

  function Known(b: bool): Truth {
    if b then True else False
  }

  function Or(a: Truth, b: Truth): Truth {
    if a == True || b == True then True else if a == False && b == False then False else Unknown
  }

  function And(a: Truth, b: Truth): Truth {
    if a == False || b == False then False else if a == True && b == True then True else Unknown
  }

  /** `payload->>'field' = value`: NULL when the field is missing. */
  function FieldEquals(field: Option<string>, value: string): Truth {
    if field.None? then Unknown else Known(field.value == value)
  }

  /** `jsonb_exists(payload->'acl_user_ids', value)`. */
  function ListContains(field: Option<seq<string>>, value: string): Truth {
    if field.None? then Unknown else Known(value in field.value)
  }

  function AclCondition(row: Row, userId: string): Truth {
    Or(Known(row.scope == "global"),
    Or(FieldEquals(row.payload.userId, userId),
    Or(FieldEquals(row.payload.visibility, "tenant"),
       And(FieldEquals(row.payload.visibility, "shared"), ListContains(row.payload.aclUserIds, userId)))))
  }

  /** The pushed-down fragment: the chosen documents, then the access rule unless the caller is an admin
      or carries no user id. */
  function Pushdown(access: AccessFilter, row: Row): Truth {
    var documents := if access.documentIds.Some? then Known(row.documentId in access.documentIds.value) else True;
    if access.role == Admin || access.userId == "" then documents
    else And(documents, AclCondition(row, access.userId))
  }

  /** The columns say the same as the payload, which every writer and the view ensure. */
  predicate Consistent(row: Row) {
    && (row.scope == "global" <==> row.payload.scope == Some("global"))
    && row.payload.documentId == Some(row.documentId)
  }

  /** For a caller with a user id the SQL fragment keeps exactly the rows the access rule admits. */
  lemma PushdownIsAccessRule(access: AccessFilter, row: Row)
    requires Consistent(row) && (access.role == Admin || access.userId != "")
    ensures Pushdown(access, row) == True <==> Admits(access, row.payload)
  {
  }

  /** A private document of somebody else. */
  function PrivateRow(documentId: string, owner: string): Row {
    Row(documentId, "tenant", Payload(Some(documentId), Some("tenant"), Some(owner), Some("private"), Some([])))
  }

  /** The exact condition for the two to coincide on all rows: an admin, a caller with a user id, or a filter
      that selects no document at all. */
  lemma {:induction false} PushdownExactlyWhen(access: AccessFilter)
    ensures (forall row :: Consistent(row) ==> (Pushdown(access, row) == True <==> Admits(access, row.payload))) <==>
              access.role == Admin || access.userId != "" || access.documentIds == Some({})
  {
    if access.role == Admin || access.userId != "" {
      forall row | Consistent(row) ensures Pushdown(access, row) == True <==> Admits(access, row.payload) {
        PushdownIsAccessRule(access, row);
      }
    } else if access.documentIds != Some({}) {
      var d := "d";
      if access.documentIds.Some? {
        assert access.documentIds.value != {};
        d :| d in access.documentIds.value;
      }
      var row := PrivateRow(d, "owner");
      assert Consistent(row) && Pushdown(access, row) == True && !Admits(access, row.payload);
    }
  }
}
