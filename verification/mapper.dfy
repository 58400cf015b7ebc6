/** The field mapper between the application's camelCase request record and
    the snake_case row of the `requests` table (App.tsx, mapFromDb and
    mapToDb). The mapping renames keys and passes values through; the only
    encoding is that a status is stored as its string value. */
module Mapper {
  import opened Wrappers
  import opened Types

  /** A column value of a persisted row, as the store hands it over. */
  datatype Value = Text(text: string) | Number(number: int) | Lines(lines: seq<BranchData>) | Null

  /** The ten columns of the `requests` table. */
  datatype Column =
    | ID | CREATED_AT | UPDATED_AT | RTM_ID | RTM_NAME
    | REGION_ID | BRANCHES | STATUS | APPROVED_AMOUNT | TM_COMMENT

  /** A persisted row, or a partial row sent as an update: column to value.
      Key presence is what distinguishes "column written" from "column left alone". */
  type Row = map<Column, Value>

  /** The snake_case key under which each column is persisted. */
  function ColumnName(c: Column): (name: string)
    ensures ParseColumn(name) == Some(c)
  {
    match c
    case ID => "id"
    case CREATED_AT => "created_at"
    case UPDATED_AT => "updated_at"
    case RTM_ID => "rtm_id"
    case RTM_NAME => "rtm_name"
    case REGION_ID => "region_id"
    case BRANCHES => "branches"
    case STATUS => "status"
    case APPROVED_AMOUNT => "approved_amount"
    case TM_COMMENT => "tm_comment"
  }

  /** The column persisted under `name`, if any. */
  function ParseColumn(name: string): Option<Column> {
    if name == "id" then Some(ID)
    else if name == "created_at" then Some(CREATED_AT)
    else if name == "updated_at" then Some(UPDATED_AT)
    else if name == "rtm_id" then Some(RTM_ID)
    else if name == "rtm_name" then Some(RTM_NAME)
    else if name == "region_id" then Some(REGION_ID)
    else if name == "branches" then Some(BRANCHES)
    else if name == "status" then Some(STATUS)
    else if name == "approved_amount" then Some(APPROVED_AMOUNT)
    else if name == "tm_comment" then Some(TM_COMMENT)
    else None
  }

  /** Distinct columns are persisted under distinct keys. */
  lemma ColumnNamesDistinct(c: Column, d: Column)
    ensures ColumnName(c) == ColumnName(d) ==> c == d
  {
    assert ParseColumn(ColumnName(c)) == Some(c);
  }

  /** `Partial<MarketingRequest>`: every property may be left undefined (None). */
  datatype Patch = Patch(
    id: Option<string>,
    createdAt: Option<string>,
    updatedAt: Option<string>,
    rtmId: Option<string>,
    rtmName: Option<string>,
    regionId: Option<string>,
    branches: Option<seq<BranchData>>,
    status: Option<RequestStatus>,
    approvedAmount: Option<int>,
    tmComment: Option<string>)

  /** The partial record with no property defined (`{}`). */
  const EmptyPatch: Patch := Patch(None, None, None, None, None, None, None, None, None, None)

  /** A whole request viewed as a partial one: its eight required properties
      are defined, the two optional ones exactly when the request has them. */
  function Whole(r: MarketingRequest): (p: Patch)
    ensures p.id.Some? && p.createdAt.Some? && p.updatedAt.Some? && p.rtmId.Some?
    ensures p.rtmName.Some? && p.regionId.Some? && p.branches.Some? && p.status.Some?
    ensures p.approvedAmount == r.approvedAmount && p.tmComment == r.tmComment
  {
    Patch(Some(r.id), Some(r.createdAt), Some(r.updatedAt), Some(r.rtmId), Some(r.rtmName),
          Some(r.regionId), Some(r.branches), Some(r.status), r.approvedAmount, r.tmComment)
  }

  /** Object spread `{...p, ...q}` of two partial records: each property
      defined in `q` wins, every other property comes from `p`. */
  function Overlay(p: Patch, q: Patch): Patch {
    Patch(q.id.Or(p.id), q.createdAt.Or(p.createdAt), q.updatedAt.Or(p.updatedAt),
          q.rtmId.Or(p.rtmId), q.rtmName.Or(p.rtmName), q.regionId.Or(p.regionId),
          q.branches.Or(p.branches), q.status.Or(p.status),
          q.approvedAmount.Or(p.approvedAmount), q.tmComment.Or(p.tmComment))
  }

  /** Spread laws of partial records: `{}` is neutral on either side,
      spreading is associative, and re-spreading the later operand changes nothing. */
  lemma OverlayLaws(p: Patch, q: Patch, s: Patch)
    ensures Overlay(EmptyPatch, q) == q && Overlay(p, EmptyPatch) == p
    ensures Overlay(Overlay(p, q), s) == Overlay(p, Overlay(q, s))
    ensures Overlay(Overlay(p, q), q) == Overlay(p, q)
  {
  }

  /** Object spread `{...r, ...p}` of a whole request and a partial one:
      the defined properties of `p` replace those of `r`. */
  function Apply(r: MarketingRequest, p: Patch): (r': MarketingRequest)
    ensures Whole(r') == Overlay(Whole(r), p)
  {
    MarketingRequest(
      p.id.GetOr(r.id), p.createdAt.GetOr(r.createdAt), p.rtmId.GetOr(r.rtmId),
      p.rtmName.GetOr(r.rtmName), p.regionId.GetOr(r.regionId), p.branches.GetOr(r.branches),
      p.status.GetOr(r.status), p.approvedAmount.Or(r.approvedAmount),
      p.tmComment.Or(r.tmComment), p.updatedAt.GetOr(r.updatedAt))
  }

  /** Spreading two partial records one after the other is spreading their overlay. */
  lemma ApplyOverlay(r: MarketingRequest, p: Patch, q: Patch)
    ensures Apply(Apply(r, p), q) == Apply(r, Overlay(p, q))
  {
  }

  /** mapToDb: a column is emitted exactly for each defined property, under
      its snake_case name, with the value passed through (a status as its
      string value). No other key is emitted and no value is null. */
  function ToDb(p: Patch): (row: Row)
    ensures ID in row <==> p.id.Some?
    ensures CREATED_AT in row <==> p.createdAt.Some?
    ensures UPDATED_AT in row <==> p.updatedAt.Some?
    ensures RTM_ID in row <==> p.rtmId.Some?
    ensures RTM_NAME in row <==> p.rtmName.Some?
    ensures REGION_ID in row <==> p.regionId.Some?
    ensures BRANCHES in row <==> p.branches.Some?
    ensures STATUS in row <==> p.status.Some?
    ensures APPROVED_AMOUNT in row <==> p.approvedAmount.Some?
    ensures TM_COMMENT in row <==> p.tmComment.Some?
    ensures ID in row ==> row[ID] == Text(p.id.value)
    ensures CREATED_AT in row ==> row[CREATED_AT] == Text(p.createdAt.value)
    ensures UPDATED_AT in row ==> row[UPDATED_AT] == Text(p.updatedAt.value)
    ensures RTM_ID in row ==> row[RTM_ID] == Text(p.rtmId.value)
    ensures RTM_NAME in row ==> row[RTM_NAME] == Text(p.rtmName.value)
    ensures REGION_ID in row ==> row[REGION_ID] == Text(p.regionId.value)
    ensures BRANCHES in row ==> row[BRANCHES] == Lines(p.branches.value)
    ensures STATUS in row ==> row[STATUS] == Text(StatusValue(p.status.value))
    ensures APPROVED_AMOUNT in row ==> row[APPROVED_AMOUNT] == Number(p.approvedAmount.value)
    ensures TM_COMMENT in row ==> row[TM_COMMENT] == Text(p.tmComment.value)
  {
    map c | c in AllColumns && Field(p, c).Some? :: Field(p, c).value
  }

  const AllColumns: set<Column> :=
    {ID, CREATED_AT, UPDATED_AT, RTM_ID, RTM_NAME, REGION_ID, BRANCHES, STATUS, APPROVED_AMOUNT, TM_COMMENT}

  /** The value mapToDb writes to column `c` for `p`: the matching property's
      value when that property is defined, and nothing otherwise. */
  function Field(p: Patch, c: Column): Option<Value> {
    match c
    case ID => if p.id.Some? then Some(Text(p.id.value)) else None
    case CREATED_AT => if p.createdAt.Some? then Some(Text(p.createdAt.value)) else None
    case UPDATED_AT => if p.updatedAt.Some? then Some(Text(p.updatedAt.value)) else None
    case RTM_ID => if p.rtmId.Some? then Some(Text(p.rtmId.value)) else None
    case RTM_NAME => if p.rtmName.Some? then Some(Text(p.rtmName.value)) else None
    case REGION_ID => if p.regionId.Some? then Some(Text(p.regionId.value)) else None
    case BRANCHES => if p.branches.Some? then Some(Lines(p.branches.value)) else None
    case STATUS => if p.status.Some? then Some(Text(StatusValue(p.status.value))) else None
    case APPROVED_AMOUNT => if p.approvedAmount.Some? then Some(Number(p.approvedAmount.value)) else None
    case TM_COMMENT => if p.tmComment.Some? then Some(Text(p.tmComment.value)) else None
  }

  /** No column of the row is written as null. */
  predicate NoNulls(row: Row) {
    forall c :: c in row ==> !row[c].Null?
  }

  /** mapToDb never writes a null: every emitted column carries the defined value. */
  lemma ToDbWritesNoNulls(p: Patch)
    ensures NoNulls(ToDb(p))
  {
    var row := ToDb(p);
    forall c | c in row
      ensures !row[c].Null?
    {
      match c
      case ID =>
      case CREATED_AT =>
      case UPDATED_AT =>
      case RTM_ID =>
      case RTM_NAME =>
      case REGION_ID =>
      case BRANCHES =>
      case STATUS =>
      case APPROVED_AMOUNT =>
      case TM_COMMENT =>
    }
  }

  /** Column `c` is present and holds text. */
  predicate HasText(row: Row, c: Column) {
    c in row && row[c].Text?
  }

  /** Nullable numeric column `c`: absent, null, or a number. */
  predicate NullableNumber(row: Row, c: Column) {
    c in row ==> row[c].Null? || row[c].Number?
  }

  /** Nullable text column `c`: absent, null, or text. */
  predicate NullableText(row: Row, c: Column) {
    c in row ==> row[c].Null? || row[c].Text?
  }

  /** The shape the store's rows have and that mapFromDb takes for granted:
      every required column present with a value of the right kind, the
      status a value of the enumeration, the nullable columns absent, null
      or of the right kind. */
  predicate IsStoredRow(row: Row) {
    && HasText(row, ID) && HasText(row, CREATED_AT) && HasText(row, UPDATED_AT)
    && HasText(row, RTM_ID) && HasText(row, RTM_NAME) && HasText(row, REGION_ID)
    && BRANCHES in row && row[BRANCHES].Lines?
    && HasText(row, STATUS) && ParseStatus(row[STATUS].text).Some?
    && NullableNumber(row, APPROVED_AMOUNT)
    && NullableText(row, TM_COMMENT)
  }

  /** mapFromDb: each property reads the column of its snake_case name; an
      absent or null nullable column reads as an unset optional property. */
  function FromDb(row: Row): (r: MarketingRequest)
    requires IsStoredRow(row)
    ensures StatusValue(r.status) == row[STATUS].text
    ensures r.approvedAmount.Some? <==> APPROVED_AMOUNT in row && row[APPROVED_AMOUNT] != Null
    ensures r.tmComment.Some? <==> TM_COMMENT in row && row[TM_COMMENT] != Null
  {
    MarketingRequest(
      row[ID].text, row[CREATED_AT].text, row[RTM_ID].text, row[RTM_NAME].text,
      row[REGION_ID].text, row[BRANCHES].lines, ParseStatus(row[STATUS].text).value,
      if APPROVED_AMOUNT in row && row[APPROVED_AMOUNT].Number? then Some(row[APPROVED_AMOUNT].number) else None,
      if TM_COMMENT in row && row[TM_COMMENT].Text? then Some(row[TM_COMMENT].text) else None,
      row[UPDATED_AT].text)
  }

  /** The row mapToDb writes for a whole request is a well-formed stored row,
      and mapFromDb reads the same request back: an unset optional stays unset. */
  lemma RoundTrip(r: MarketingRequest)
    ensures IsStoredRow(ToDb(Whole(r)))
    ensures FromDb(ToDb(Whole(r))) == r
  {
    var row := ToDb(Whole(r));
    assert ParseStatus(row[STATUS].text) == Some(r.status);
  }

  /** The other direction: every non-null column of a stored row passes
      through mapFromDb and mapToDb unchanged, and a null column is dropped
      (it reads as an unset optional); a stored row with no null column is exactly the row mapToDb writes for the request mapFromDb reads. */
  lemma CanonicalRowRoundTrip(row: Row)
    requires IsStoredRow(row)
    ensures ToDb(Whole(FromDb(row))) == map c | c in row && !row[c].Null? :: row[c]
    ensures NoNulls(row) ==> ToDb(Whole(FromDb(row))) == row
  {
    var r := FromDb(row);
    var back := ToDb(Whole(r));
    StatusEncodingBijective(row[STATUS].text, r.status);
    var kept := map c | c in row && !row[c].Null? :: row[c];
    forall k
      ensures k in back <==> k in kept
      ensures k in kept ==> back[k] == kept[k]
    {
      match k
      case ID =>
      case CREATED_AT =>
      case UPDATED_AT =>
      case RTM_ID =>
      case RTM_NAME =>
      case REGION_ID =>
      case BRANCHES =>
      case STATUS =>
      case APPROVED_AMOUNT =>
      case TM_COMMENT =>
    }
  }

  /** The status-and-comment partial record maps to exactly those two columns,
      and the empty partial record to the empty row. */
  lemma PartialRowExamples(s: RequestStatus, comment: string)
    ensures ToDb(EmptyPatch.(status := Some(s), tmComment := Some(comment))).Keys == {STATUS, TM_COMMENT}
    ensures ToDb(EmptyPatch) == map[]
  {
    var row := ToDb(EmptyPatch.(status := Some(s), tmComment := Some(comment)));
    assert STATUS in row && TM_COMMENT in row;
  }

  /** Column-wise update semantics of a partial row: columns the partial row
      names are overwritten, every other column is kept. */
  function Update(row: Row, partial: Row): (r: Row)
    ensures r.Keys == row.Keys + partial.Keys
    ensures forall k :: k in partial ==> r[k] == partial[k]
    ensures forall k :: k in row && k !in partial ==> r[k] == row[k]
  {
    row + partial
  }

  /** Writing mapToDb(p) over the stored row of `r` and reading the row back
      gives `{...r, ...p}`: a partial update touches only the properties it defines. */
  lemma UpdateAgreesWithSpread(r: MarketingRequest, p: Patch)
    ensures IsStoredRow(Update(ToDb(Whole(r)), ToDb(p)))
    ensures FromDb(Update(ToDb(Whole(r)), ToDb(p))) == Apply(r, p)
  {
    var stored := ToDb(Whole(r));
    var partial := ToDb(p);
    var u := Update(stored, partial);
    var s := Apply(r, p).status;
    assert u[STATUS] == Text(StatusValue(s));
    assert ParseStatus(u[STATUS].text) == Some(s);
  }
}
