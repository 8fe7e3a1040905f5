/**
 * POST /medications: validates a new medication of the caller's connection,
 * stores it with its picture name, and registers its meal timings, in one
 * transaction.  The multipart upload itself is an input: the handler only
 * learns whether it produced a file name.
 */
module MedicationCreate {
  import opened Wrappers
  import opened Strings
  import opened Php
  import opened Tables
  import Seqs
  import Uploads
  import ConfigLoader
  import MedicationTimings

  /** The request fields the handler reads; None when the key is not set. */
  datatype CreateRequest = CreateRequest(
    name: Option<string>, nickname: Option<string>, description: Option<string>,
    dosageFormId: Option<Value>, unitTypeId: Option<Value>, timingIds: Option<Value>)

  /** What handleImageUpload() did with the uploaded picture. */
  datatype ImageUpload = NoImage | Uploaded(filename: string) | UploadRejected

  /** The request after the handler's trimming, defaults and intval(). */
  datatype MedicationInput = MedicationInput(
    name: string, nickname: string, description: string, dosageFormId: int, unitTypeId: int, timingIds: string)

  /** The checks on the input, in the order the handler makes them. */
  datatype InputProblem = MissingName | MissingDosageForm | MissingUnitType | MissingTimings

  /** The checks against the reference tables and the connection. */
  datatype StoreProblem = UnknownDosageForm | UnknownUnitType | UnitMismatch | ForeignConnection

  /** The response data of a created medication. */
  datatype Created = Created(
    medicationId: int, name: string, nickname: string, description: string, dosageFormId: int, unitTypeId: int,
    pictureFilename: Option<string>, pictureUrl: Option<string>, displayName: string, timingIds: seq<int>)

  /** A nickname or description: the trimmed text, or '-' when it is missing or empty after trimming. */
  function OrDash(v: Option<string>): (r: string)
    ensures !EmptyString(r)
    ensures v.None? || EmptyString(Trim(v.value)) ==> r == "-"
    ensures v.Some? && !EmptyString(Trim(v.value)) ==> r == Trim(v.value)
  {
    if v.Some? && !EmptyString(Trim(v.value)) then Trim(v.value) else "-"
  }

  /** The timing_ids field as text: an array is imploded with ',', anything else is trimmed. */
  function TimingText(v: Option<Value>): string
  {
    match v
    case None => ""
    case Some(Arr(entries)) =>
      if |entries| == 0 then "" else Join(seq(|entries|, i requires 0 <= i < |entries| => ToStr(entries[i].1)), ',')
    case Some(x) => Trim(ToStr(x))
  }

  function InputOf(req: CreateRequest): MedicationInput
  {
    MedicationInput(
      if req.name.Some? then Trim(req.name.value) else "",
      OrDash(req.nickname), OrDash(req.description),
      if req.dosageFormId.Some? then ToInt(req.dosageFormId.value) else 0,
      if req.unitTypeId.Some? then ToInt(req.unitTypeId.value) else 0,
      TimingText(req.timingIds))
  }

  /** The first failing input check; empty() makes "0" count as missing. */
  function FirstProblem(input: MedicationInput): (r: Option<InputProblem>)
    ensures r == Some(MissingName) <==> EmptyString(input.name)
    ensures r == Some(MissingDosageForm) <==> !EmptyString(input.name) && input.dosageFormId <= 0
    ensures r == Some(MissingUnitType) <==> !EmptyString(input.name) && input.dosageFormId > 0 && input.unitTypeId <= 0
    ensures r == Some(MissingTimings) <==>
      !EmptyString(input.name) && input.dosageFormId > 0 && input.unitTypeId > 0 && EmptyString(input.timingIds)
    ensures r.None? <==>
      !EmptyString(input.name) && input.dosageFormId > 0 && input.unitTypeId > 0 && !EmptyString(input.timingIds)
  {
    if EmptyString(input.name) then Some(MissingName)
    else if input.dosageFormId <= 0 then Some(MissingDosageForm)
    else if input.unitTypeId <= 0 then Some(MissingUnitType)
    else if EmptyString(input.timingIds) then Some(MissingTimings)
    else None
  }

  /** SELECT ... FROM unit_type WHERE unit_type_id = ?. */
  function UnitTypeById(unitTypes: seq<UnitType>, unitTypeId: int): (r: Option<UnitType>)
    ensures r.None? <==> forall i :: 0 <= i < |unitTypes| ==> unitTypes[i].id != unitTypeId
    ensures r.Some? ==> r.value in unitTypes && r.value.id == unitTypeId
  {
    Seqs.FindFirst(unitTypes, (u: UnitType) => u.id == unitTypeId)
  }

  predicate DosageFormExists(dosageForms: seq<DosageForm>, dosageFormId: int)
  {
    exists i :: 0 <= i < |dosageForms| && dosageForms[i].id == dosageFormId
  }

  /**
   * The checks inside the transaction: the dosage form exists, the unit type
   * exists and belongs to that form, and the token's connection is the user's.
   */
  function StoreCheck(dosageForms: seq<DosageForm>, unitTypes: seq<UnitType>, connects: seq<Connection>,
                      input: MedicationInput, userId: int, connectId: int): (r: Option<StoreProblem>)
    ensures r.None? <==>
      && DosageFormExists(dosageForms, input.dosageFormId)
      && (exists i :: 0 <= i < |unitTypes| && unitTypes[i].id == input.unitTypeId)
      && UnitTypeById(unitTypes, input.unitTypeId).value.dosageFormId == input.dosageFormId
      && ConnectionOf(connects, connectId, userId)
    ensures r == Some(ForeignConnection) ==> !ConnectionOf(connects, connectId, userId)
  {
    if !DosageFormExists(dosageForms, input.dosageFormId) then Some(UnknownDosageForm)
    else
      match UnitTypeById(unitTypes, input.unitTypeId)
      case None => Some(UnknownUnitType)
      case Some(u) =>
        if u.dosageFormId != input.dosageFormId then Some(UnitMismatch)
        else if !ConnectionOf(connects, connectId, userId) then Some(ForeignConnection)
        else None
  }

  /** A failed table check answers 403 for a foreign connection and 422 otherwise. */
  function ProblemCode(p: StoreProblem): int
  {
    if p == ForeignConnection then Forbidden else Unprocessable
  }

  function NonZero(i: int): bool { i != 0 }

  /** The timing_ids text split at commas, every piece cast to an integer, zeros dropped. */
  function TimingIdList(timingIds: string): seq<int>
  {
    var parts := Split(timingIds, ',');
    Seqs.Filter(seq(|parts|, i requires 0 <= i < |parts| => IntVal(parts[i])), NonZero)
  }

  /** Positive ids written as a comma list are read back unchanged, in order. */
  lemma TimingIdListOfIds(ids: seq<int>)
    requires |ids| >= 1 && forall i :: 0 <= i < |ids| ==> ids[i] > 0
    ensures TimingIdList(Join(seq(|ids|, i requires 0 <= i < |ids| => IntToString(ids[i])), ',')) == ids
  {
    var texts := seq(|ids|, i requires 0 <= i < |ids| => IntToString(ids[i]));
    forall i | 0 <= i < |texts| ensures ',' !in texts[i] {
      var n := NatToString(ids[i]);
      assert texts[i] == n;
      assert forall k :: 0 <= k < |n| ==> IsDigit(n[k]);
    }
    SplitJoin(texts, ',');
    var parts := Split(Join(texts, ','), ',');
    var values := seq(|parts|, i requires 0 <= i < |parts| => IntVal(parts[i]));
    forall i | 0 <= i < |parts| ensures values[i] == ids[i] {
      IntValOfIntToString(ids[i]);
    }
    assert values == ids;
    Seqs.FilterAll(values, NonZero);
  }

  /** Every id the list keeps is non-zero; a zero or a non-numeric piece is dropped. */
  lemma TimingIdListNonZero(timingIds: string)
    ensures forall i :: 0 <= i < |TimingIdList(timingIds)| ==> TimingIdList(timingIds)[i] != 0
  {
    var parts := Split(timingIds, ',');
    Seqs.FilterAt(seq(|parts|, i requires 0 <= i < |parts| => IntVal(parts[i])), NonZero);
  }

  /** display_name: the nickname unless it is the '-' placeholder. */
  function DisplayName(nickname: string, name: string): string
  {
    if nickname != "-" then nickname else name
  }

  /** A request that passes the input checks never shows an empty name. */
  lemma DisplayNameNonEmpty(req: CreateRequest)
    requires FirstProblem(InputOf(req)).None?
    ensures !EmptyString(DisplayName(InputOf(req).nickname, InputOf(req).name))
    ensures InputOf(req).nickname == "-" ==> DisplayName(InputOf(req).nickname, InputOf(req).name) == InputOf(req).name
  {
  }

  /** The picture column: the uploaded file's name, if any. */
  function PictureOf(image: ImageUpload): Option<string>
  {
    if image.Uploaded? then Some(image.filename) else None
  }

  /**
   * The handler.  userId and connectId come from the token; image is the
   * outcome of the upload; fault stands for a database error in a statement
   * of the transaction, the dosage form, unit type and connection lookups
   * among them, which answers 500 and rolls everything back.
   */
  method Create(s: Store, userId: int, connectId: int, req: CreateRequest, image: ImageUpload,
                config: ConfigLoader.UploadConfig, fault: bool) returns (r: Reply<Created>)
    requires s.Valid()
    modifies s`medications, s`nextMedicationId, s`medicationTimings
    ensures s.Valid()
    ensures r.Fail? ==> unchanged(s)
    ensures userId <= 0 || connectId <= 0 ==> r == Fail(Unprocessable)
    ensures userId > 0 && connectId > 0 && FirstProblem(InputOf(req)).Some? ==> r == Fail(Unprocessable)
    ensures userId > 0 && connectId > 0 && FirstProblem(InputOf(req)).None? ==>
      var p := StoreCheck(old(s.dosageForms), old(s.unitTypes), old(s.connects), InputOf(req), userId, connectId);
      && (fault ==> r == Fail(ServerError))
      && (!fault && p.Some? ==> r == Fail(ProblemCode(p.value)))
      && (!fault && p.None? && image.UploadRejected? ==> r == Fail(Unprocessable))
      && (!fault && p.None? && !image.UploadRejected? ==> r.Ok?)
    ensures r.Ok? ==>
      var input := InputOf(req);
      var id := old(s.nextMedicationId);
      var ids := TimingIdList(input.timingIds);
      && s.medications == old(s.medications) + [Medication(id, connectId, input.name, input.nickname, input.description,
                                                           input.dosageFormId, input.unitTypeId, PictureOf(image))]
      && s.nextMedicationId == id + 1
      && s.medicationTimings == old(s.medicationTimings) + MedicationTimings.RowsOf(id, MedicationTimings.Inserted(ids, s.timings))
      && r.data == Created(id, input.name, input.nickname, input.description, input.dosageFormId, input.unitTypeId,
                           PictureOf(image), Uploads.ImageUrl(config, PictureOf(image)),
                           DisplayName(input.nickname, input.name), ids)
  {
    if userId <= 0 || connectId <= 0 {
      return Fail(Unprocessable);
    }
    var input := InputOf(req);
    if FirstProblem(input).Some? {
      return Fail(Unprocessable);
    }
    if fault {
      return Fail(ServerError);
    }
    var problem := StoreCheck(s.dosageForms, s.unitTypes, s.connects, input, userId, connectId);
    if problem.Some? {
      return Fail(ProblemCode(problem.value));
    }
    if image.UploadRejected? {
      return Fail(Unprocessable);
    }
    r := Insert(s, connectId, input, image, config);
  }

  /** The writes of a request that passed every check: the medication row, then its timings. */
  method Insert(s: Store, connectId: int, input: MedicationInput, image: ImageUpload, config: ConfigLoader.UploadConfig)
    returns (r: Reply<Created>)
    requires s.Valid()
    modifies s`medications, s`nextMedicationId, s`medicationTimings
    ensures s.Valid() && r.Ok?
    ensures
      var id := old(s.nextMedicationId);
      var ids := TimingIdList(input.timingIds);
      && s.medications == old(s.medications) + [Medication(id, connectId, input.name, input.nickname, input.description,
                                                           input.dosageFormId, input.unitTypeId, PictureOf(image))]
      && s.nextMedicationId == id + 1
      && s.medicationTimings == old(s.medicationTimings) + MedicationTimings.RowsOf(id, MedicationTimings.Inserted(ids, s.timings))
      && r.data == Created(id, input.name, input.nickname, input.description, input.dosageFormId, input.unitTypeId,
                           PictureOf(image), Uploads.ImageUrl(config, PictureOf(image)),
                           DisplayName(input.nickname, input.name), ids)
  {
    var picture := PictureOf(image);
    var id := AddMedication(s, Medication(s.nextMedicationId, connectId, input.name, input.nickname, input.description,
                                          input.dosageFormId, input.unitTypeId, picture));
    var ids := TimingIdList(input.timingIds);
    ghost var validBefore := s.Valid();
    var added := MedicationTimings.InsertTimings(s, id, ids);
    assert validBefore == s.Valid();
    r := Ok(Created(id, input.name, input.nickname, input.description, input.dosageFormId, input.unitTypeId,
                    picture, Uploads.ImageUrl(config, picture), DisplayName(input.nickname, input.name), ids));
  }

  /** INSERT INTO medication: the row takes the next AUTO_INCREMENT id. */
  method AddMedication(s: Store, row: Medication) returns (id: int)
    requires s.Valid() && row.id == s.nextMedicationId
    modifies s`medications, s`nextMedicationId
    ensures s.Valid()
    ensures id == old(s.nextMedicationId) && s.nextMedicationId == id + 1
    ensures s.medications == old(s.medications) + [row]
  {
    id := s.nextMedicationId;
    IdsOfAppend(s.medications, [row], MedicationId);
    AscendingAppend(IdsOf(s.medications, MedicationId), [id], id, id + 1);
    s.medications := s.medications + [row];
    s.nextMedicationId := id + 1;
  }
}
