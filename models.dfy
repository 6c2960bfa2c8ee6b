/**
 * The `KnowledgeBase` record of core/models.py: its status choices and defaults, the
 * uniqueness of `widget_slug` across all rows, and the persisted row that
 * `save(update_fields=...)` writes to.
 */
module Models {
  import opened Wrappers
  import opened Strings

  /** The four `STATUS_CHOICES`. */
  datatype Status = Uploaded | Processing | Completed | Failed

  /** The value stored in the `status` column for each choice. */
  function StatusName(s: Status): string {
    match s
    case Uploaded => "uploaded"
    case Processing => "processing"
    case Completed => "completed"
    case Failed => "failed"
  }

  /** Validation of a raw column value against the choices. */
  function ParseStatus(name: string): Option<Status> {
    if name == "uploaded" then Some(Uploaded)
    else if name == "processing" then Some(Processing)
    else if name == "completed" then Some(Completed)
    else if name == "failed" then Some(Failed)
    else None
  }

  const StatusMaxLength: nat := 20
  const TitleMaxLength: nat := 255
  const SlugMaxLength: nat := 50

  /** Every status is stored as its own name, within `max_length=20`, and ParseStatus accepts
      exactly the four stored names: the column takes exactly one of the four values. */
  lemma StatusNameRoundTrip(s: Status, name: string)
    ensures ParseStatus(StatusName(s)) == Some(s)
    ensures |StatusName(s)| <= StatusMaxLength
    ensures ParseStatus(name) == Some(s) <==> name == StatusName(s)
  {
  }

  /** One row of the `KnowledgeBase` table (the owner is the `user` foreign key; `file` is the
      stored file's name, `""` when the field is empty; `created_at` is not modelled). */
  datatype KnowledgeBase = KnowledgeBase(
    id: nat,
    owner: nat,
    title: string,
    fileName: string,
    isEmbedded: bool,
    widgetSlug: Option<string>,
    status: Status,
    errorMessage: Option<string>)

  /** The row created by an upload: every field left to its model default. */
  function NewKnowledgeBase(id: nat, owner: nat, title: string, fileName: string): (kb: KnowledgeBase)
    ensures kb.id == id && kb.owner == owner && kb.title == title && kb.fileName == fileName
  {
    KnowledgeBase(id, owner, title, fileName, false, None, Uploaded, None)
  }

  /** Django's slug validator (`[-a-zA-Z0-9_]+`) with the default `max_length=50`. */
  predicate IsSlugChar(c: char) {
    ('a' <= c <= 'z') || ('A' <= c <= 'Z') || ('0' <= c <= '9') || c == '-' || c == '_'
  }

  predicate IsSlugValue(s: string) {
    0 < |s| <= SlugMaxLength && forall i :: 0 <= i < |s| ==> IsSlugChar(s[i])
  }

  /** The length limits of `title` and `status`, and a slug that passes the field's validator
      when one is set (`blank=True` and `null=True` also admit `""` and `None`). */
  predicate WellFormed(kb: KnowledgeBase) {
    && |kb.title| <= TitleMaxLength
    && |StatusName(kb.status)| <= StatusMaxLength
    && (kb.widgetSlug.Some? && kb.widgetSlug.value != "" ==> IsSlugValue(kb.widgetSlug.value))
  }

  predicate IsLowerHex(c: char) {
    ('0' <= c <= '9') || ('a' <= c <= 'f')
  }

  /** `str(uuid.uuid4())[:8]`: the first eight characters of a UUID string are lower-case
      hexadecimal digits.  Values of this type stand for the random choice. */
  type FreshSlug = s: string | |s| == 8 && forall i :: 0 <= i < |s| ==> IsLowerHex(s[i])
    witness "00000000"

  lemma FreshSlugIsSlugValue(s: FreshSlug)
    ensures IsSlugValue(s)
  {
  }

  /** A new row is well formed when its title fits, and it starts out not embedded, without
      slug, error or any status but `uploaded`. */
  lemma NewKnowledgeBaseDefaults(id: nat, owner: nat, title: string, fileName: string)
    requires |title| <= TitleMaxLength
    ensures var kb := NewKnowledgeBase(id, owner, title, fileName);
      && WellFormed(kb) && kb.status == Uploaded && !kb.isEmbedded
      && kb.widgetSlug == None && kb.errorMessage == None
  {
  }

  /** `unique=True` on `widget_slug`: no two rows hold the same non-null slug. */
  predicate SlugsUnique(db: map<nat, KnowledgeBase>) {
    forall i, j :: i in db && j in db && i != j && db[i].widgetSlug.Some? ==>
      db[i].widgetSlug != db[j].widgetSlug
  }

  /** The slugs held by the rows other than `id`: writing one of them to row `id` violates the
      unique constraint. */
  function OtherSlugs(db: map<nat, KnowledgeBase>, id: nat): (taken: set<string>)
    ensures forall j :: j in db && j != id && db[j].widgetSlug.Some? ==>
      db[j].widgetSlug.value in taken
    ensures forall s :: s in taken ==>
      exists j :: j in db && j != id && db[j].widgetSlug == Some(s)
  {
    set j | j in db && j != id && db[j].widgetSlug.Some? :: db[j].widgetSlug.value
  }

  /** Replacing row `id` keeps the slugs unique when its slug is null, unchanged, or not held
      by any other row. */
  lemma ReplacePreservesUniqueSlugs(db: map<nat, KnowledgeBase>, id: nat, kb: KnowledgeBase)
    requires SlugsUnique(db) && id in db
    requires kb.widgetSlug == None || kb.widgetSlug == db[id].widgetSlug
      || kb.widgetSlug.value !in OtherSlugs(db, id)
    ensures SlugsUnique(db[id := kb])
  {
    var db' := db[id := kb];
    forall i, j | i in db' && j in db' && i != j && db'[i].widgetSlug.Some?
      ensures db'[i].widgetSlug != db'[j].widgetSlug
    {
      if i == id && kb.widgetSlug != db[id].widgetSlug {
        assert db[j].widgetSlug.Some? ==> db[j].widgetSlug.value in OtherSlugs(db, id);
      } else if j == id && kb.widgetSlug != db[id].widgetSlug && kb.widgetSlug.Some? {
        assert db[i].widgetSlug.value in OtherSlugs(db, id);
      }
    }
  }

  /** The row's name in the vector store, `f"kb_{kb.id}"`. */
  function IndexName(id: nat): string {
    "kb_" + NatToDecimal(id)
  }

  /** Distinct rows never share a vector index. */
  lemma IndexNameInjective(a: nat, b: nat)
    ensures IndexName(a) == IndexName(b) ==> a == b
  {
    if IndexName(a) == IndexName(b) {
      assert IndexName(a)[3..] == NatToDecimal(a);
      assert IndexName(b)[3..] == NatToDecimal(b);
      NatToDecimalInjective(a, b);
    }
  }

  /** The columns `save(update_fields=...)` may name. */
  datatype Column = StatusColumn | ErrorMessageColumn | IsEmbeddedColumn | WidgetSlugColumn

  /** The persisted row after writing the named columns of the in-memory instance `kb`. */
  function Persist(row: KnowledgeBase, kb: KnowledgeBase, columns: set<Column>): (r: KnowledgeBase)
  {
    row.(
      status := if StatusColumn in columns then kb.status else row.status,
      errorMessage := if ErrorMessageColumn in columns then kb.errorMessage else row.errorMessage,
      isEmbedded := if IsEmbeddedColumn in columns then kb.isEmbedded else row.isEmbedded,
      widgetSlug := if WidgetSlugColumn in columns then kb.widgetSlug else row.widgetSlug)
  }

  /** Writing a column that is not named leaves it as it was; writing back what was loaded
      changes nothing. */
  lemma PersistOnlyNamedColumns(row: KnowledgeBase, kb: KnowledgeBase, columns: set<Column>)
    ensures var r := Persist(row, kb, columns);
      && r.id == row.id && r.owner == row.owner && r.title == row.title
      && r.fileName == row.fileName
      && (StatusColumn !in columns ==> r.status == row.status)
      && (ErrorMessageColumn !in columns ==> r.errorMessage == row.errorMessage)
      && (IsEmbeddedColumn !in columns ==> r.isEmbedded == row.isEmbedded)
      && (WidgetSlugColumn !in columns ==> r.widgetSlug == row.widgetSlug)
      && Persist(row, row, columns) == row
  {
  }

  /** Whether `kb.save(update_fields=columns)` hits the unique constraint: it writes a non-null
      slug that another row holds. */
  predicate SlugClash(kb: KnowledgeBase, columns: set<Column>, takenSlugs: set<string>) {
    WidgetSlugColumn in columns && kb.widgetSlug.Some? && kb.widgetSlug.value in takenSlugs
  }

  /** The persisted `KnowledgeBase` row that views and tasks load, change in memory and save. */
  class KnowledgeBaseRow {
    const id: nat
    const owner: nat
    const title: string
    const fileName: string
    var isEmbedded: bool
    var widgetSlug: Option<string>
    var status: Status
    var errorMessage: Option<string>

    function Value(): (kb: KnowledgeBase)
      reads this
    {
      KnowledgeBase(id, owner, title, fileName, isEmbedded, widgetSlug, status, errorMessage)
    }

    /** `KnowledgeBase.objects.create(...)`: a row holding the model defaults. */
    constructor (id: nat, owner: nat, title: string, fileName: string)
      ensures Value() == NewKnowledgeBase(id, owner, title, fileName)
    {
      this.id, this.owner, this.title, this.fileName := id, owner, title, fileName;
      isEmbedded, widgetSlug, status, errorMessage := false, None, Uploaded, None;
    }

    /** `kb.save(update_fields=columns)`: writes the named columns of the instance `kb`, or
        writes nothing and reports failure (an `IntegrityError`) when the slug it would write is
        held by another row. */
    method Save(kb: KnowledgeBase, columns: set<Column>, takenSlugs: set<string>) returns (saved: bool)
      modifies this
      ensures saved == !SlugClash(kb, columns, takenSlugs)
      ensures Value() == if saved then Persist(old(Value()), kb, columns) else old(Value())
    {
      saved := !SlugClash(kb, columns, takenSlugs);
      if saved {
        if StatusColumn in columns { status := kb.status; }
        if ErrorMessageColumn in columns { errorMessage := kb.errorMessage; }
        if IsEmbeddedColumn in columns { isEmbedded := kb.isEmbedded; }
        if WidgetSlugColumn in columns { widgetSlug := kb.widgetSlug; }
      }
    }
  }
}
