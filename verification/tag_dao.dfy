/**
 * internal/dao/tag.go: the records and statements the tag DAO builds before it
 * hands them to the ORM. The model package (`model.Tag` and its `Count`,
 * `List`, `Create`, `Update`, `Delete`) is not part of this model; each
 * operation here returns the statement it would issue. `ApplyColumns` gives
 * the column-update meaning of an update map, to state what an update does to
 * a stored row.
 */
module TagDao {
  import opened GoInts
  import opened Wrappers
  import Pagination

  /** The embedded `model.Model` fields the DAO sets. */
  datatype BaseModel = BaseModel(id: uint32, createdBy: string)

  /** `model.Tag`; `model` is None when the embedded `*model.Model` is nil. */
  datatype Tag = Tag(name: string, state: uint8, model: Option<BaseModel>)

  /** A value in an update map (Go `any`). */
  datatype Column = StateValue(state: uint8) | TextValue(text: string)

  datatype Statement =
    | CountRows(tag: Tag)
    | ListRows(tag: Tag, offset: int64, limit: int64)
    | InsertRow(tag: Tag)
    | UpdateRow(tag: Tag, values: map<string, Column>)
    | DeleteRow(tag: Tag)

  /** `CountTag`: counts tags filtered by name and state. */
  function CountTag(name: string, state: uint8): (r: Statement)
    ensures r.CountRows? && r.tag.name == name && r.tag.state == state && r.tag.model.None?
  {
    CountRows(Tag(name, state, None))
  }

  /** `GetTagList`: one page of tags, skipping the rows of the pages before it. */
  function GetTagList(name: string, state: uint8, page: int64, pageSize: int64): (r: Statement)
    ensures r.ListRows? && r.tag == Tag(name, state, None) && r.limit == pageSize
    ensures page <= 0 ==> r.offset == 0
    ensures page > 0 && InInt64((page - 1) * pageSize) ==> r.offset == (page - 1) * pageSize
  {
    var tag := Tag(name, state, None);
    var pageOffset := Pagination.GetPageOffset(page, pageSize);
    ListRows(tag, pageOffset, pageSize)
  }

  /**
   * Consecutive pages tile the table: each page's window starts where the
   * previous one ends, so rows are neither skipped nor repeated.
   */
  lemma ListPagesTile(name: string, state: uint8, page: int64, pageSize: int64)
    requires page >= 1 && page + 1 <= MaxInt64
    requires InInt64(page * pageSize)
    ensures GetTagList(name, state, 1, pageSize).offset == 0
    ensures GetTagList(name, state, page + 1, pageSize).offset ==
      GetTagList(name, state, page, pageSize).offset + GetTagList(name, state, page, pageSize).limit
  {
    Pagination.OffsetsAdvanceByPageSize(page, pageSize);
  }

  /**
   * The list handler reports the total from `CountTag` beside the page from
   * `GetTagList` for the same name and state, so both filter on the same tag.
   */
  lemma CountMatchesList(name: string, state: uint8, page: int64, pageSize: int64)
    ensures CountTag(name, state).tag == GetTagList(name, state, page, pageSize).tag
  {
  }

  /** `CreateTag`: inserts a tag with the given name, state and creator. */
  function CreateTag(name: string, state: uint8, createdBy: string): (r: Statement)
    ensures r.InsertRow? && r.tag.name == name && r.tag.state == state
    ensures r.tag.model.Some? && r.tag.model.value.createdBy == createdBy
  {
    InsertRow(Tag(name, state, Some(BaseModel(0, createdBy))))
  }

  /** `UpdateTag`: always writes state and modifier; writes the name only when one is given. */
  function UpdateTag(id: uint32, name: string, state: uint8, modifiedBy: string): (r: Statement)
    ensures r.UpdateRow? && r.tag == Tag("", 0, Some(BaseModel(id, "")))
    ensures "state" in r.values && r.values["state"] == StateValue(state)
    ensures "modified_by" in r.values && r.values["modified_by"] == TextValue(modifiedBy)
    ensures "name" in r.values <==> name != ""
    ensures "name" in r.values ==> r.values["name"] == TextValue(name)
    ensures r.values.Keys <= {"state", "modified_by", "name"}
  {
    var tag := Tag("", 0, Some(BaseModel(id, "")));
    var vals := map["state" := StateValue(state), "modified_by" := TextValue(modifiedBy)];
    var vals := if name != "" then vals["name" := TextValue(name)] else vals;
    UpdateRow(tag, vals)
  }

  /** `DeleteTag`: deletes the tag identified by id; every other field is left at its zero value. */
  function DeleteTag(id: uint32): (r: Statement)
    ensures r.DeleteRow? && r.tag == Tag("", 0, Some(BaseModel(id, "")))
  {
    DeleteRow(Tag("", 0, Some(BaseModel(id, ""))))
  }

  /** Delete and update of the same id address the same row: the id is the only key set. */
  lemma DeleteTargetsUpdatedRow(id: uint32, name: string, state: uint8, modifiedBy: string)
    ensures DeleteTag(id).tag == UpdateTag(id, name, state, modifiedBy).tag
    ensures DeleteTag(id).tag.model.value.id == id
  {
  }

  /** A stored tag row. */
  datatype TagRow = TagRow(id: uint32, name: string, state: uint8, createdBy: string, modifiedBy: string)

  /** The row after an update map is written to it: listed columns change, others stay. */
  function ApplyColumns(row: TagRow, values: map<string, Column>): TagRow
  {
    var row := if "name" in values && values["name"].TextValue? then row.(name := values["name"].text) else row;
    var row := if "state" in values && values["state"].StateValue? then row.(state := values["state"].state) else row;
    if "modified_by" in values && values["modified_by"].TextValue? then row.(modifiedBy := values["modified_by"].text) else row
  }

  /**
   * What an update does to the row it targets: state and modifier take the new
   * values, the name changes only when a non-empty one is given, and the id and
   * creator stay as they were.
   */
  lemma UpdateTagEffect(row: TagRow, name: string, state: uint8, modifiedBy: string)
    ensures var after := ApplyColumns(row, UpdateTag(row.id, name, state, modifiedBy).values);
      && after.id == row.id && after.createdBy == row.createdBy
      && after.state == state && after.modifiedBy == modifiedBy
      && after.name == (if name != "" then name else row.name)
  {
  }

  /**
   * The row an insert stores, given the id the database assigns: the tag's
   * name, state and creator, and an empty modifier.
   */
  function InsertedRow(tag: Tag, id: uint32): TagRow
  {
    TagRow(id, tag.name, tag.state, if tag.model.Some? then tag.model.value.createdBy else "", "")
  }

  /**
   * A created tag is stored with exactly the given name, state and creator;
   * a later update of it changes state and modifier and keeps the creator.
   */
  lemma CreateThenUpdate(name: string, state: uint8, createdBy: string, id: uint32,
                         newName: string, newState: uint8, modifiedBy: string)
    ensures InsertedRow(CreateTag(name, state, createdBy).tag, id) == TagRow(id, name, state, createdBy, "")
    ensures var after := ApplyColumns(InsertedRow(CreateTag(name, state, createdBy).tag, id),
                                      UpdateTag(id, newName, newState, modifiedBy).values);
      after == TagRow(id, if newName != "" then newName else name, newState, createdBy, modifiedBy)
  {
    var row := InsertedRow(CreateTag(name, state, createdBy).tag, id);
    UpdateTagEffect(row, newName, newState, modifiedBy);
  }
}
