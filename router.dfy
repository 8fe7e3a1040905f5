/**
 * The front controller api/index.php: it strips the configured base path
 * from the request path, splits the rest into segments and hands the
 * request to one endpoint, answering an empty 200 for the root, 404 for an
 * unknown path and 405 for a known path called with a method it does not
 * accept.  Handing over is modelled by naming the endpoint together with the
 * query parameters the router sets for it.
 */
module Router {
  import opened Wrappers
  import opened Strings
  import opened Php

  datatype Endpoint =
    | Login | Register | Refresh | OtpRequest | ResetPassword
    | ListMedications | CreateMedication | ShowMedication | UpdateMedication | DeleteMedication
    | EditMedication | SetMedicationTimings
    | ListReminders | ReminderSlots | UpdateReminder | ReminderLinks | SetReminderStatus
    | ListHistory | HistorySummary | HistoryDetail
    | ShowSettings | SetVolume
    | ConnectDevice | SetUsername
    | ListDosageForms
    | DeviceSchedule | DeviceRecord

  /** What the router does with a request: an empty 200, an error code, or an endpoint with the parameters it was given. */
  datatype Outcome = EmptyOk | Error(code: int) | Handle(endpoint: Endpoint, params: map<string, string>)

  // ---------------------------------------------------------------------------
  // Path normalisation

  /** The base path is removed only when the path starts with it. */
  function StripBase(path: string, basePath: string): (r: string)
    ensures basePath <= path ==> basePath + r == path
    ensures !(basePath <= path) ==> r == path
  {
    if basePath <= path then path[|basePath|..] else path
  }

  /** The path without trailing slashes, and '/' for a path that is then empty(). */
  function NormalizePath(path: string, basePath: string): (r: string)
    ensures |r| > 0 && !EmptyString(r)
    ensures r == "/" || r[|r| - 1] != '/'
  {
    var p := TrimRightBy(StripBase(path, basePath), {'/'});
    if EmptyString(p) then "/" else p
  }

  /** Normalising a normalised path with no base path changes nothing. */
  lemma NormalizePathIdempotent(path: string, basePath: string)
    ensures NormalizePath(NormalizePath(path, basePath), "") == NormalizePath(path, basePath)
  {
    var n := NormalizePath(path, basePath);
    assert StripBase(n, "") == n;
    if n != "/" {
      TrimRightFixed(n, {'/'});
    }
  }

  /** The path without leading and trailing slashes, split at '/'. */
  function Segments(path: string): (r: seq<string>)
    ensures |r| >= 1
  {
    Split(TrimChars(path, {'/'}), '/')
  }

  /** The k-th segment, or null when there is none. */
  function Seg(segments: seq<string>, k: nat): (r: Option<string>)
    ensures r.Some? <==> k < |segments|
    ensures r.Some? ==> r.value == segments[k]
  {
    if k < |segments| then Some(segments[k]) else None
  }

  /** The truthiness of a segment that may be missing. */
  predicate Given(v: Option<string>)
  {
    v.Some? && !EmptyString(v.value)
  }

  /** isValidId(): numeric and greater than 0. */
  predicate IsValidId(v: Value)
  {
    IsNumeric(v) && match v case Int(i) => i > 0 case Str(s) => IntVal(s) > 0 case _ => false
  }

  /** The decimal text of a positive number is a valid id, and 0 or a negative number is not. */
  lemma IsValidIdOfNumber(n: int)
    ensures IsValidId(Str(IntToString(n))) <==> n > 0
    ensures IsValidId(Int(n)) <==> n > 0
  {
    IntValOfIntToString(n);
    IntToStringIsInt(n);
  }

  /** The text of an integer is integer notation. */
  lemma IntToStringIsInt(n: int)
    ensures IsIntString(IntToString(n))
  {
    var s := IntToString(n);
    var m: nat := if n < 0 then -n else n;
    assert s[0] !in NumericBlanks;
    TrimLeftFixed(s, NumericBlanks);
    assert s[|s| - 1] !in NumericBlanks;
    TrimRightFixed(s, NumericBlanks);
    assert StripSign(s) == NatToString(m);
  }

  // ---------------------------------------------------------------------------
  // The handle*Routes functions, as written

  function OnlyPost(verb: string, e: Endpoint): Outcome
  {
    if verb == "POST" then Handle(e, map[]) else Error(MethodNotAllowed)
  }

  function OnlyGet(verb: string, e: Endpoint): Outcome
  {
    if verb == "GET" then Handle(e, map[]) else Error(MethodNotAllowed)
  }

  function PutOrPost(verb: string, e: Endpoint, params: map<string, string>): Outcome
  {
    if verb == "PUT" || verb == "POST" then Handle(e, params) else Error(MethodNotAllowed)
  }

  function AuthRoutes(segments: seq<string>, verb: string): Outcome
  {
    var action := Seg(segments, 1).GetOr("");
    if action == "login" then OnlyPost(verb, Login)
    else if action == "register" then OnlyPost(verb, Register)
    else if action == "refresh" then OnlyPost(verb, Refresh)
    else if action == "otp" then OnlyPost(verb, OtpRequest)
    else if action == "reset-password" then OnlyPost(verb, ResetPassword)
    else Error(NotFound)
  }

  function MedicationRoutes(segments: seq<string>, verb: string): Outcome
  {
    var id, action := Seg(segments, 1), Seg(segments, 2);
    if Given(id) && Given(action) then
      var params := map["medication_id" := id.value];
      if action.value == "edit" then
        (if verb == "GET" then Handle(EditMedication, params) else Error(MethodNotAllowed))
      else if action.value == "timings" then PutOrPost(verb, SetMedicationTimings, params)
      else Error(NotFound)
    else if Given(id) && IsNumeric(Str(id.value)) then
      var params := map["medication_id" := id.value];
      if verb == "GET" then Handle(ShowMedication, params)
      else if verb == "POST" then Handle(UpdateMedication, params)
      else if verb == "DELETE" then Handle(DeleteMedication, params)
      else Error(MethodNotAllowed)
    else if verb == "GET" then Handle(ListMedications, map[])
    else if verb == "POST" then Handle(CreateMedication, map[])
    else Error(MethodNotAllowed)
  }

  function ReminderRoutes(segments: seq<string>, verb: string): Outcome
  {
    var action := Seg(segments, 1).GetOr("");
    if action == "" then OnlyGet(verb, ListReminders)
    else if action == "slots" then OnlyGet(verb, ReminderSlots)
    else if action == "update" then (if verb == "PUT" then Handle(UpdateReminder, map[]) else Error(MethodNotAllowed))
    else if action == "links" then OnlyGet(verb, ReminderLinks)
    else if action == "status" then PutOrPost(verb, SetReminderStatus, map[])
    else Error(NotFound)
  }

  function HistoryRoutes(segments: seq<string>, verb: string): Outcome
  {
    var id := Seg(segments, 1);
    if id == Some("summary") then OnlyGet(verb, HistorySummary)
    else if Given(id) && IsNumeric(Str(id.value)) then
      (if verb == "GET" then Handle(HistoryDetail, map["history_id" := id.value]) else Error(MethodNotAllowed))
    else OnlyGet(verb, ListHistory)
  }

  function SettingsRoutes(segments: seq<string>, verb: string): Outcome
  {
    var action := Seg(segments, 1).GetOr("");
    if action == "" then OnlyGet(verb, ShowSettings)
    else if action == "volume" then PutOrPost(verb, SetVolume, map[])
    else Error(NotFound)
  }

  function DeviceRoutes(segments: seq<string>, verb: string): Outcome
  {
    var action := Seg(segments, 1).GetOr("");
    if action == "connect" then OnlyPost(verb, ConnectDevice)
    else if action == "username" then PutOrPost(verb, SetUsername, map[])
    else Error(NotFound)
  }

  function Esp32Routes(segments: seq<string>, verb: string): Outcome
  {
    var action := Seg(segments, 1).GetOr("");
    if action == "schedule" then OnlyGet(verb, DeviceSchedule)
    else if action == "record" then OnlyPost(verb, DeviceRecord)
    else Error(NotFound)
  }

  /** The root test: the first segment is empty() or the path is exactly '/'. */
  predicate IsRoot(segments: seq<string>, path: string)
    requires |segments| >= 1
  {
    EmptyString(segments[0]) || path == "/"
  }

  /** The switch on the first segment. */
  function Switch(segments: seq<string>, verb: string): Outcome
    requires |segments| >= 1
  {
    match segments[0]
    case "auth" => AuthRoutes(segments, verb)
    case "medications" => MedicationRoutes(segments, verb)
    case "reminders" => ReminderRoutes(segments, verb)
    case "history" => HistoryRoutes(segments, verb)
    case "settings" => SettingsRoutes(segments, verb)
    case "devices" => DeviceRoutes(segments, verb)
    case "dosage-forms" => OnlyGet(verb, ListDosageForms)
    case "esp32" => Esp32Routes(segments, verb)
    case _ => Error(NotFound)
  }

  /**
   * The whole router: an OPTIONS request is answered with an empty 200 before
   * any routing (handleOptions()); otherwise normalise, answer the root, and
   * switch on the first segment.
   */
  function Route(rawPath: string, verb: string, basePath: string): (r: Outcome)
  {
    if verb == "OPTIONS" then EmptyOk
    else
      var path := NormalizePath(rawPath, basePath);
      var segments := Segments(path);
      if IsRoot(segments, path) then EmptyOk else Switch(segments, verb)
  }

  // ---------------------------------------------------------------------------
  // The routing table, stated declaratively: for each path, the methods it
  // accepts, the endpoint each one reaches and the parameters passed on.

  datatype Resource = Resource(methods: map<string, Endpoint>, params: map<string, string>)

  function Fixed(methods: map<string, Endpoint>): Resource { Resource(methods, map[]) }

  /** The rows of the table under /medications, by the second and third segments. */
  function MedicationsTable(s1: Option<string>, s2: Option<string>): Option<Resource>
  {
    if Given(s1) && Given(s2) then
      var p := map["medication_id" := s1.value];
      if s2.value == "edit" then Some(Resource(map["GET" := EditMedication], p))
      else if s2.value == "timings" then Some(Resource(map["PUT" := SetMedicationTimings, "POST" := SetMedicationTimings], p))
      else None
    else if Given(s1) && IsNumeric(Str(s1.value)) then
      Some(Resource(map["GET" := ShowMedication, "POST" := UpdateMedication, "DELETE" := DeleteMedication],
                    map["medication_id" := s1.value]))
    else Some(Fixed(map["GET" := ListMedications, "POST" := CreateMedication]))
  }

  /** The resource a path names, or None for a path no route knows. */
  function Table(segments: seq<string>): Option<Resource>
    requires |segments| >= 1
  {
    var s1, s2 := Seg(segments, 1), Seg(segments, 2);
    var a := s1.GetOr("");
    match segments[0]
    case "auth" =>
      if a in {"login", "register", "refresh", "otp", "reset-password"} then
        Some(Fixed(map["POST" := match a case "login" => Login case "register" => Register case "refresh" => Refresh
                                    case "otp" => OtpRequest case _ => ResetPassword]))
      else None
    case "medications" => MedicationsTable(s1, s2)
    case "reminders" =>
      if a == "" then Some(Fixed(map["GET" := ListReminders]))
      else if a == "slots" then Some(Fixed(map["GET" := ReminderSlots]))
      else if a == "update" then Some(Fixed(map["PUT" := UpdateReminder]))
      else if a == "links" then Some(Fixed(map["GET" := ReminderLinks]))
      else if a == "status" then Some(Fixed(map["PUT" := SetReminderStatus, "POST" := SetReminderStatus]))
      else None
    case "history" =>
      if s1 == Some("summary") then Some(Fixed(map["GET" := HistorySummary]))
      else if Given(s1) && IsNumeric(Str(s1.value)) then Some(Resource(map["GET" := HistoryDetail], map["history_id" := s1.value]))
      else Some(Fixed(map["GET" := ListHistory]))
    case "settings" =>
      if a == "" then Some(Fixed(map["GET" := ShowSettings]))
      else if a == "volume" then Some(Fixed(map["PUT" := SetVolume, "POST" := SetVolume]))
      else None
    case "devices" =>
      if a == "connect" then Some(Fixed(map["POST" := ConnectDevice]))
      else if a == "username" then Some(Fixed(map["PUT" := SetUsername, "POST" := SetUsername]))
      else None
    case "dosage-forms" => Some(Fixed(map["GET" := ListDosageForms]))
    case "esp32" =>
      if a == "schedule" then Some(Fixed(map["GET" := DeviceSchedule]))
      else if a == "record" then Some(Fixed(map["POST" := DeviceRecord]))
      else None
    case _ => None
  }

  /** The table's answer: 404 for an unknown path, 405 for a method the path does not list, else the listed endpoint. */
  function Dispatch(segments: seq<string>, verb: string): Outcome
    requires |segments| >= 1
  {
    match Table(segments)
    case None => Error(NotFound)
    case Some(res) => if verb in res.methods then Handle(res.methods[verb], res.params) else Error(MethodNotAllowed)
  }

  lemma AuthFollowsTable(segments: seq<string>, verb: string)
    requires |segments| >= 1 && segments[0] == "auth"
    ensures AuthRoutes(segments, verb) == Dispatch(segments, verb)
  {
    var a := Seg(segments, 1).GetOr("");
    assert a in {"login", "register", "refresh", "otp", "reset-password"} <==>
      a == "login" || a == "register" || a == "refresh" || a == "otp" || a == "reset-password";
  }

  lemma MedicationsFollowTable(segments: seq<string>, verb: string)
    requires |segments| >= 1 && segments[0] == "medications"
    ensures MedicationRoutes(segments, verb) == Dispatch(segments, verb)
  {
    assert Table(segments) == MedicationsTable(Seg(segments, 1), Seg(segments, 2));
  }

  lemma RemindersFollowTable(segments: seq<string>, verb: string)
    requires |segments| >= 1 && segments[0] == "reminders"
    ensures ReminderRoutes(segments, verb) == Dispatch(segments, verb)
  {
  }

  lemma HistoryFollowsTable(segments: seq<string>, verb: string)
    requires |segments| >= 1 && segments[0] == "history"
    ensures HistoryRoutes(segments, verb) == Dispatch(segments, verb)
  {
  }

  lemma OthersFollowTable(segments: seq<string>, verb: string)
    requires |segments| >= 1 && segments[0] in {"settings", "devices", "dosage-forms", "esp32"}
    ensures Switch(segments, verb) == Dispatch(segments, verb)
  {
  }

  /** The switch statements of the router implement the routing table exactly. */
  lemma SwitchFollowsTable(segments: seq<string>, verb: string)
    requires |segments| >= 1
    ensures Switch(segments, verb) == Dispatch(segments, verb)
  {
    match segments[0]
    case "auth" => AuthFollowsTable(segments, verb);
    case "medications" => MedicationsFollowTable(segments, verb);
    case "reminders" => RemindersFollowTable(segments, verb);
    case "history" => HistoryFollowsTable(segments, verb);
    case "settings" => OthersFollowTable(segments, verb);
    case "devices" => OthersFollowTable(segments, verb);
    case "dosage-forms" => OthersFollowTable(segments, verb);
    case "esp32" => OthersFollowTable(segments, verb);
    case _ =>
  }

  /** The router as a whole: OPTIONS and the root are an empty 200, anything else the routing table's answer. */
  lemma RouteFollowsTable(rawPath: string, verb: string, basePath: string)
    ensures var path := NormalizePath(rawPath, basePath);
      var segments := Segments(path);
      Route(rawPath, verb, basePath) ==
        if verb == "OPTIONS" || IsRoot(segments, path) then EmptyOk else Dispatch(segments, verb)
  {
    var path := NormalizePath(rawPath, basePath);
    SwitchFollowsTable(Segments(path), verb);
  }

  /** An OPTIONS request and the root path, and nothing else, answer an empty 200. */
  lemma RootIsEmptyOk(rawPath: string, verb: string, basePath: string)
    ensures Route(rawPath, verb, basePath) == EmptyOk <==>
      verb == "OPTIONS" || IsRoot(Segments(NormalizePath(rawPath, basePath)), NormalizePath(rawPath, basePath))
  {
    var path := NormalizePath(rawPath, basePath);
    var segments := Segments(path);
    if !IsRoot(segments, path) {
      SwitchFollowsTable(segments, verb);
    }
  }

  /** A first segment no route knows is 404 for every method but OPTIONS. */
  lemma UnknownSegmentNotFound(rawPath: string, verb: string, basePath: string)
    requires var path := NormalizePath(rawPath, basePath);
      var segments := Segments(path);
      !IsRoot(segments, path)
      && segments[0] !in {"auth", "medications", "reminders", "history", "settings", "devices", "dosage-forms", "esp32"}
    ensures Route(rawPath, verb, basePath) == if verb == "OPTIONS" then EmptyOk else Error(NotFound)
  {
  }

  /** An endpoint is only ever reached with a method its path lists. */
  lemma HandledMethodIsListed(segments: seq<string>, verb: string)
    requires |segments| >= 1 && Dispatch(segments, verb).Handle?
    ensures Table(segments).Some? && verb in Table(segments).value.methods
    ensures Dispatch(segments, verb).endpoint == Table(segments).value.methods[verb]
  {
  }

  /** The device endpoints: the schedule accepts only GET and the record only POST. */
  lemma DeviceMethods(segments: seq<string>, verb: string)
    requires |segments| >= 2 && segments[0] == "esp32"
    ensures segments[1] == "schedule" ==>
      Dispatch(segments, verb) == if verb == "GET" then Handle(DeviceSchedule, map[]) else Error(MethodNotAllowed)
    ensures segments[1] == "record" ==>
      Dispatch(segments, verb) == if verb == "POST" then Handle(DeviceRecord, map[]) else Error(MethodNotAllowed)
  {
  }

  /** The medication routes: an action after the id, a numeric id alone, or the collection. */
  lemma MedicationDispatch(segments: seq<string>, verb: string)
    requires |segments| >= 1 && segments[0] == "medications"
    ensures var id, action := Seg(segments, 1), Seg(segments, 2);
      && (Given(id) && action == Some("edit") ==>
            Dispatch(segments, verb) == if verb == "GET" then Handle(EditMedication, map["medication_id" := id.value])
                                          else Error(MethodNotAllowed))
      && (Given(id) && action == Some("timings") ==>
            Dispatch(segments, verb) == if verb == "PUT" || verb == "POST"
                                          then Handle(SetMedicationTimings, map["medication_id" := id.value])
                                          else Error(MethodNotAllowed))
      && (Given(id) && IsNumeric(Str(id.value)) && !Given(action) ==>
            Dispatch(segments, verb) ==
              if verb == "GET" then Handle(ShowMedication, map["medication_id" := id.value])
              else if verb == "POST" then Handle(UpdateMedication, map["medication_id" := id.value])
              else if verb == "DELETE" then Handle(DeleteMedication, map["medication_id" := id.value])
              else Error(MethodNotAllowed))
      && (!Given(id) || (!IsNumeric(Str(id.value)) && !Given(action)) ==>
            Dispatch(segments, verb) ==
              if verb == "GET" then Handle(ListMedications, map[])
              else if verb == "POST" then Handle(CreateMedication, map[])
              else Error(MethodNotAllowed))
  {
  }

  /** history/summary is the summary even though a numeric id would take the same place. */
  lemma SummaryBeforeDetail(segments: seq<string>, verb: string)
    requires |segments| >= 2 && segments[0] == "history"
    ensures segments[1] == "summary" ==>
      Dispatch(segments, verb) == if verb == "GET" then Handle(HistorySummary, map[]) else Error(MethodNotAllowed)
    ensures segments[1] != "summary" && !EmptyString(segments[1]) && IsNumeric(Str(segments[1])) ==>
      Dispatch(segments, verb) == if verb == "GET" then Handle(HistoryDetail, map["history_id" := segments[1]])
                                    else Error(MethodNotAllowed)
  {
    var s1 := Seg(segments, 1);
    assert s1 == Some(segments[1]);
    if segments[1] == "summary" {
      assert Table(segments) == Some(Fixed(map["GET" := HistorySummary]));
    } else if !EmptyString(segments[1]) && IsNumeric(Str(segments[1])) {
      assert Given(s1);
      assert Table(segments) == Some(Resource(map["GET" := HistoryDetail], map["history_id" := segments[1]]));
    }
  }
}
