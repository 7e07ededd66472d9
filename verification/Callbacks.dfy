/** The callback payload grammar: a colon-separated printer and parser with a byte cap. */
module Callbacks {
  import opened Sequences
  import opened Text

  const MAX_PAYLOAD: nat := 256

  datatype DashboardAction = Previous | Next | Refresh

  datatype SettingFeature = Apple | Qobuz | Album | Playlist | Artist | Txt | MultiLink | AutoDump

  datatype SettingsAction =
    | CloseSettings
    | RefreshSettings
    | Storefronts
    | Mode
    | Toggle(feature: SettingFeature)
    | Limit(limit: nat)
    | ToggleStorefront(storefront: string)

  datatype ReportReason = Corrupted | Incomplete | Metadata | OtherReason

  datatype ReportAction =
    | CancelReport
    | Submit(trackId: string, reason: ReportReason)
    | Dismiss(reportId: string)
    | Delete(trackId: string, reportId: string)
    | Rerip(trackId: string, reportId: string)

  datatype DiscoveryAction =
    | CloseDiscovery
    | Menu
    | Discover(source: string, storefront: string)
    | Reroll(source: string, storefront: string)
    | Dump(albumId: string, storefront: string)

  datatype Action =
    | Dashboard(dashboard: DashboardAction, page: nat)
    | Cancel(jobId: string)
    | Settings(settings: SettingsAction)
    | Report(report: ReportAction)
    | Discovery(discovery: DiscoveryAction)
    | DeliverCached(trackId: string)
    | Get(trackId: string)
    | SearchClose
    | AuthPage(page: nat)
    | AuthClose
    | ConfirmDelete(token: string)
    | CancelDelete(token: string)
    | ConfirmImport(token: string)
    | CancelImport(token: string)
    | Noop

  datatype DecodeError = Empty | Unknown | Malformed | Oversized

  // ----- Validators -----

  predicate IdChar(c: char) {
    'a' <= c <= 'z' || 'A' <= c <= 'Z' || '0' <= c <= '9' || c == '-' || c == '_'
  }

  predicate IdOfAtMost(value: string, max: nat) {
    value != "" && |value| <= max && forall i :: 0 <= i < |value| ==> IdChar(value[i])
  }

  predicate ValidId(value: string) {
    IdOfAtMost(value, 96)
  }

  predicate ValidToken(value: string) {
    IdOfAtMost(value, 64)
  }

  predicate IsLetter(c: char) {
    'a' <= c <= 'z' || 'A' <= c <= 'Z'
  }

  predicate ValidStorefront(value: string) {
    |value| == 2 && IsLetter(value[0]) && IsLetter(value[1])
  }

  const SOURCES: set<string> := {
    "charts", "wild", "rock", "hiphop", "pop", "electronic", "jazz", "indie", "rap", "edm",
    "southasia", "subcontinent", "desi", "india", "pakistan", "bangladesh", "nepal", "bhutan"
  }

  // ----- Printing -----

  function DashboardWord(action: DashboardAction): string {
    match action
    case Previous => "prev"
    case Next => "next"
    case Refresh => "refresh"
  }

  function FeatureWord(feature: SettingFeature): string {
    match feature
    case Apple => "apple"
    case Qobuz => "qobuz"
    case Album => "album"
    case Playlist => "playlist"
    case Artist => "artist"
    case Txt => "txt"
    case MultiLink => "multilink"
    case AutoDump => "autodump"
  }

  function ReasonWord(reason: ReportReason): string {
    match reason
    case Corrupted => "corrupted"
    case Incomplete => "incomplete"
    case Metadata => "metadata"
    case OtherReason => "other"
  }

  function SettingsFields(action: SettingsAction): seq<string> {
    match action
    case CloseSettings => ["close"]
    case RefreshSettings => ["refresh"]
    case Storefronts => ["sf_menu"]
    case Mode => ["mode"]
    case Toggle(feature) => [FeatureWord(feature)]
    case Limit(limit) => ["limit", Decimal(limit)]
    case ToggleStorefront(storefront) => ["sf", "toggle", storefront]
  }

  function ReportFields(action: ReportAction): seq<string> {
    match action
    case CancelReport => ["cancel"]
    case Submit(trackId, reason) => ["sub", trackId, ReasonWord(reason)]
    case Dismiss(reportId) => ["act", "dismiss", reportId]
    case Delete(trackId, reportId) => ["act", "del", trackId, reportId]
    case Rerip(trackId, reportId) => ["act", "rerip", trackId, reportId]
  }

  function DiscoveryFields(action: DiscoveryAction): seq<string> {
    match action
    case CloseDiscovery => ["close"]
    case Menu => ["menu"]
    case Discover(source, storefront) => ["src", source, storefront]
    case Reroll(source, storefront) => ["reroll", source, storefront]
    case Dump(albumId, storefront) => ["dump", albumId, storefront]
  }

  /** The colon-separated fields of a payload: a prefix and what follows it. */
  function Fields(action: Action): (fields: seq<string>)
    ensures fields != []
  {
    match action
    case Dashboard(dashboard, page) => ["dashboard", DashboardWord(dashboard), Decimal(page)]
    case Cancel(jobId) => ["cancel", jobId]
    case Settings(settings) => ["settings"] + SettingsFields(settings)
    case Report(report) => ["report"] + ReportFields(report)
    case Discovery(discovery) => ["random"] + DiscoveryFields(discovery)
    case DeliverCached(trackId) => ["cached", trackId]
    case Get(trackId) => ["get", trackId]
    case SearchClose => ["search_close"]
    case AuthPage(page) => ["authpage", Decimal(page)]
    case AuthClose => ["authclose"]
    case ConfirmDelete(token) => ["delete_confirm", token]
    case CancelDelete(token) => ["delete_cancel", token]
    case ConfirmImport(token) => ["import_confirm", token]
    case CancelImport(token) => ["import_cancel", token]
    case Noop => ["noop"]
  }

  function Encode(action: Action): string {
    Join(Fields(action), ':')
  }

  // ----- Parsing -----

  function One(rest: seq<string>): Result<string, DecodeError> {
    if |rest| == 1 && rest[0] != "" then Ok(rest[0]) else Err(Malformed)
  }

  function ParsePage(value: string): Result<nat, DecodeError> {
    match ParseUnsigned(value, U64)
    case Some(page) => if page > 0 then Ok(page) else Err(Malformed)
    case None => Err(Malformed)
  }

  function DecodeWithId(rest: seq<string>, make: string -> Action): Result<Action, DecodeError> {
    match One(rest)
    case Ok(id) => Ok(make(id))
    case Err(error) => Err(error)
  }

  function DecodeWithToken(rest: seq<string>, make: string -> Action): Result<Action, DecodeError> {
    match One(rest)
    case Ok(token) => if ValidToken(token) then Ok(make(token)) else Err(Malformed)
    case Err(error) => Err(error)
  }

  function DecodeAuthPage(rest: seq<string>): Result<Action, DecodeError> {
    match One(rest)
    case Err(error) => Err(error)
    case Ok(value) =>
      match ParsePage(value)
      case Ok(page) => Ok(AuthPage(page))
      case Err(error) => Err(error)
  }

  function DecodeDashboard(rest: seq<string>): Result<Action, DecodeError> {
    if |rest| != 2 then Err(Malformed)
    else if rest[0] != "prev" && rest[0] != "next" && rest[0] != "refresh" then Err(Unknown)
    else
      var dashboard := if rest[0] == "prev" then Previous else if rest[0] == "next" then Next else Refresh;
      match ParsePage(rest[1])
      case Ok(page) => Ok(Dashboard(dashboard, page))
      case Err(error) => Err(error)
  }

  function DecodeSettings(rest: seq<string>): Result<SettingsAction, DecodeError> {
    if rest == ["close"] then Ok(CloseSettings)
    else if rest == ["refresh"] then Ok(RefreshSettings)
    else if rest == ["sf_menu"] then Ok(Storefronts)
    else if rest == ["mode"] then Ok(Mode)
    else if rest == ["apple"] then Ok(Toggle(Apple))
    else if rest == ["qobuz"] then Ok(Toggle(Qobuz))
    else if rest == ["album"] then Ok(Toggle(Album))
    else if rest == ["playlist"] then Ok(Toggle(Playlist))
    else if rest == ["artist"] then Ok(Toggle(Artist))
    else if rest == ["txt"] then Ok(Toggle(Txt))
    else if rest == ["multilink"] then Ok(Toggle(MultiLink))
    else if rest == ["autodump"] then Ok(Toggle(AutoDump))
    else if |rest| == 2 && rest[0] == "limit" then
      match ParseUnsigned(rest[1], U32)
      case Some(limit) => Ok(Limit(limit))
      case None => Err(Malformed)
    else if |rest| == 3 && rest[0] == "sf" && rest[1] == "toggle" && ValidStorefront(rest[2]) then
      Ok(ToggleStorefront(Lower(rest[2])))
    else Err(Unknown)
  }

  function ParseReason(value: string): Result<ReportReason, DecodeError> {
    match value
    case "corrupted" => Ok(Corrupted)
    case "incomplete" => Ok(Incomplete)
    case "metadata" => Ok(Metadata)
    case "other" => Ok(OtherReason)
    case _ => Err(Unknown)
  }

  function DecodeReport(rest: seq<string>): Result<ReportAction, DecodeError> {
    if rest == ["cancel"] then Ok(CancelReport)
    else if |rest| == 3 && rest[0] == "sub" && ValidId(rest[1]) then
      match ParseReason(rest[2])
      case Ok(reason) => Ok(Submit(rest[1], reason))
      case Err(error) => Err(error)
    else if |rest| == 3 && rest[0] == "act" && rest[1] == "dismiss" && ValidId(rest[2]) then Ok(Dismiss(rest[2]))
    else if |rest| == 4 && rest[0] == "act" && rest[1] == "del" && ValidId(rest[2]) && ValidId(rest[3]) then
      Ok(Delete(rest[2], rest[3]))
    else if |rest| == 4 && rest[0] == "act" && rest[1] == "rerip" && ValidId(rest[2]) && ValidId(rest[3]) then
      Ok(Rerip(rest[2], rest[3]))
    else Err(Unknown)
  }

  function DecodeDiscovery(rest: seq<string>): Result<DiscoveryAction, DecodeError> {
    if rest == ["close"] then Ok(CloseDiscovery)
    else if rest == ["menu"] then Ok(Menu)
    else if |rest| == 2 && rest[0] == "src" && rest[1] in SOURCES then Ok(Discover(rest[1], "us"))
    else if |rest| == 3 && rest[0] == "src" && rest[1] in SOURCES && ValidStorefront(rest[2]) then
      Ok(Discover(rest[1], Lower(rest[2])))
    else if |rest| == 3 && rest[0] == "reroll" && rest[1] in SOURCES && ValidStorefront(rest[2]) then
      Ok(Reroll(rest[1], Lower(rest[2])))
    else if |rest| == 2 && rest[0] == "reroll" && rest[1] in SOURCES then Ok(Reroll(rest[1], "us"))
    else if |rest| == 3 && rest[0] == "dump" && ValidId(rest[1]) && ValidStorefront(rest[2]) then
      Ok(Dump(rest[1], Lower(rest[2])))
    else Err(Unknown)
  }

  function MapOk<T>(r: Result<T, DecodeError>, make: T -> Action): Result<Action, DecodeError> {
    match r
    case Ok(value) => Ok(make(value))
    case Err(error) => Err(error)
  }

  function DecodeFields(prefix: string, rest: seq<string>): Result<Action, DecodeError> {
    match prefix
    case "cancel" => DecodeWithId(rest, id => Cancel(id))
    case "cached" => DecodeWithId(rest, id => DeliverCached(id))
    case "get" => DecodeWithId(rest, id => Get(id))
    case "authpage" => DecodeAuthPage(rest)
    case "dashboard" => DecodeDashboard(rest)
    case "settings" => MapOk(DecodeSettings(rest), a => Settings(a))
    case "report" => MapOk(DecodeReport(rest), a => Report(a))
    case "random" => MapOk(DecodeDiscovery(rest), a => Discovery(a))
    case "delete_confirm" => DecodeWithToken(rest, token => ConfirmDelete(token))
    case "delete_cancel" => DecodeWithToken(rest, token => CancelDelete(token))
    case "import_confirm" => DecodeWithToken(rest, token => ConfirmImport(token))
    case "import_cancel" => DecodeWithToken(rest, token => CancelImport(token))
    case _ => Err(Unknown)
  }

  /** The three payloads without fields. */
  function ParseBareWord(data: string): Option<Action> {
    if data == "search_close" then Some(SearchClose)
    else if data == "authclose" then Some(AuthClose)
    else if data == "noop" then Some(Noop)
    else None
  }

  /** Parsing without the cap. */
  function Parse(data: string): Result<Action, DecodeError> {
    match ParseBareWord(data)
    case Some(action) => Ok(action)
    case None =>
      var parts := Split(data, ':');
      DecodeFields(parts[0], parts[1..])
  }

  function Decode(data: string): Result<Action, DecodeError> {
    if data == "" then Err(Empty)
    else if ByteLen(data) > MAX_PAYLOAD then Err(Oversized)
    else Parse(data)
  }

  // ----- Well-formed actions -----

  predicate Field(value: string) {
    value != "" && ':' !in value
  }

  predicate LowerStorefront(value: string) {
    ValidStorefront(value) && Lower(value) == value
  }

  predicate ValidPage(page: nat) {
    1 <= page < U64
  }

  predicate WellFormedSettings(action: SettingsAction) {
    match action
    case Limit(limit) => limit < U32
    case ToggleStorefront(storefront) => LowerStorefront(storefront)
    case _ => true
  }

  predicate WellFormedReport(action: ReportAction) {
    match action
    case CancelReport => true
    case Submit(trackId, _) => ValidId(trackId)
    case Dismiss(reportId) => ValidId(reportId)
    case Delete(trackId, reportId) => ValidId(trackId) && ValidId(reportId)
    case Rerip(trackId, reportId) => ValidId(trackId) && ValidId(reportId)
  }

  predicate WellFormedDiscovery(action: DiscoveryAction) {
    match action
    case CloseDiscovery => true
    case Menu => true
    case Discover(source, storefront) => source in SOURCES && LowerStorefront(storefront)
    case Reroll(source, storefront) => source in SOURCES && LowerStorefront(storefront)
    case Dump(albumId, storefront) => ValidId(albumId) && LowerStorefront(storefront)
  }

  predicate WellFormed(action: Action) {
    match action
    case Dashboard(_, page) => ValidPage(page)
    case Cancel(jobId) => Field(jobId)
    case Settings(settings) => WellFormedSettings(settings)
    case Report(report) => WellFormedReport(report)
    case Discovery(discovery) => WellFormedDiscovery(discovery)
    case DeliverCached(trackId) => Field(trackId)
    case Get(trackId) => Field(trackId)
    case AuthPage(page) => ValidPage(page)
    case ConfirmDelete(token) => ValidToken(token)
    case CancelDelete(token) => ValidToken(token)
    case ConfirmImport(token) => ValidToken(token)
    case CancelImport(token) => ValidToken(token)
    case _ => true
  }

  // ----- Fields survive joining and splitting -----

  predicate PlainFields(fields: seq<string>) {
    forall i :: 0 <= i < |fields| ==> ':' !in fields[i]
  }

  lemma {:induction false} SplitJoined(fields: seq<string>)
    requires fields != [] && PlainFields(fields)
    ensures Split(Join(fields, ':'), ':') == fields
  {
    if |fields| == 1 {
      SplitWhole(fields[0], ':');
      assert [fields[0]] == fields;
    } else {
      SplitJoined(fields[1..]);
      SplitJoin(fields[0], Join(fields[1..], ':'), ':');
      assert [fields[0]] + fields[1..] == fields;
    }
  }

  lemma JoinedHasColon(fields: seq<string>)
    requires |fields| >= 2
    ensures ':' in Join(fields, ':')
  {
    var s := Join(fields, ':');
    assert s[|fields[0]|] == ':';
  }

  lemma IdIsPlain(value: string, max: nat)
    requires IdOfAtMost(value, max)
    ensures Field(value) && Ascii(value)
  {
    forall i | 0 <= i < |value| ensures value[i] != ':' && value[i] as int < 0x80 {
      assert IdChar(value[i]);
    }
  }

  lemma DecimalIsPlain(n: nat)
    ensures Field(Decimal(n)) && Ascii(Decimal(n))
  {
    var d := Decimal(n);
    forall i | 0 <= i < |d| ensures d[i] != ':' && d[i] as int < 0x80 {
      assert d[i] in d && IsDigit(d[i]);
    }
  }

  lemma StorefrontIsPlain(value: string)
    requires ValidStorefront(value)
    ensures Field(value) && Ascii(value) && LowerStorefront(Lower(value))
  {
    LowerTwice(value);
  }

  lemma SourceIsPlain(source: string)
    requires source in SOURCES
    ensures Field(source) && Ascii(source) && |source| <= 12
  {
  }

  // ----- Parsing undoes printing -----

  lemma FeatureRoundTrip(feature: SettingFeature)
    ensures ':' !in FeatureWord(feature) && DecodeSettings([FeatureWord(feature)]) == Ok(Toggle(feature))
  {
  }

  lemma LimitRoundTrip(limit: nat)
    requires limit < U32
    ensures DecodeSettings(["limit", Decimal(limit)]) == Ok(Limit(limit))
  {
    ParseDecimal(limit, U32);
  }

  lemma SettingsRoundTrip(action: SettingsAction)
    requires WellFormedSettings(action)
    ensures PlainFields(SettingsFields(action))
    ensures DecodeSettings(SettingsFields(action)) == Ok(action)
  {
    hide FeatureWord, Decimal;
    match action {
      case Limit(limit) =>
        DecimalIsPlain(limit);
        LimitRoundTrip(limit);
      case Toggle(feature) => FeatureRoundTrip(feature);
      case ToggleStorefront(storefront) => StorefrontIsPlain(storefront);
      case _ =>
    }
  }

  lemma ReasonRoundTrip(reason: ReportReason)
    ensures ':' !in ReasonWord(reason) && ParseReason(ReasonWord(reason)) == Ok(reason)
  {
  }

  lemma ReportRoundTrip(action: ReportAction)
    requires WellFormedReport(action)
    ensures PlainFields(ReportFields(action))
    ensures DecodeReport(ReportFields(action)) == Ok(action)
  {
    match action {
      case CancelReport =>
      case Submit(trackId, reason) =>
        IdIsPlain(trackId, 96);
        ReasonRoundTrip(reason);
      case Dismiss(reportId) => IdIsPlain(reportId, 96);
      case Delete(trackId, reportId) =>
        IdIsPlain(trackId, 96);
        IdIsPlain(reportId, 96);
      case Rerip(trackId, reportId) =>
        IdIsPlain(trackId, 96);
        IdIsPlain(reportId, 96);
    }
  }

  lemma DiscoveryRoundTrip(action: DiscoveryAction)
    requires WellFormedDiscovery(action)
    ensures PlainFields(DiscoveryFields(action))
    ensures DecodeDiscovery(DiscoveryFields(action)) == Ok(action)
  {
    match action {
      case CloseDiscovery =>
      case Menu =>
      case Discover(source, storefront) =>
        SourceIsPlain(source);
        StorefrontIsPlain(storefront);
      case Reroll(source, storefront) =>
        SourceIsPlain(source);
        StorefrontIsPlain(storefront);
      case Dump(albumId, storefront) =>
        IdIsPlain(albumId, 96);
        StorefrontIsPlain(storefront);
    }
  }

  lemma PageRoundTrip(page: nat)
    requires ValidPage(page)
    ensures Field(Decimal(page)) && ParsePage(Decimal(page)) == Ok(page)
  {
    DecimalIsPlain(page);
    ParseDecimal(page, U64);
  }

  predicate Bare(action: Action) {
    action.SearchClose? || action.AuthClose? || action.Noop?
  }

  lemma DashboardRoundTrip(action: DashboardAction, page: nat)
    requires ValidPage(page)
    ensures ':' !in DashboardWord(action) && ':' !in Decimal(page)
    ensures DecodeDashboard([DashboardWord(action), Decimal(page)]) == Ok(Dashboard(action, page))
  {
    PageRoundTrip(page);
  }

  lemma FieldsArePlain(action: Action)
    requires WellFormed(action)
    ensures PlainFields(Fields(action))
  {
    hide SettingsFields, ReportFields, DiscoveryFields, DecodeSettings, DecodeReport, DecodeDiscovery, DecodeDashboard,
      DashboardWord, Decimal, IdOfAtMost, WellFormedSettings, WellFormedReport, WellFormedDiscovery, ParsePage;
    match action {
      case Dashboard(dashboard, page) => DashboardRoundTrip(dashboard, page);
      case Settings(settings) => SettingsRoundTrip(settings);
      case Report(report) => ReportRoundTrip(report);
      case Discovery(discovery) => DiscoveryRoundTrip(discovery);
      case AuthPage(page) => PageRoundTrip(page);
      case ConfirmDelete(token) => IdIsPlain(token, 64);
      case CancelDelete(token) => IdIsPlain(token, 64);
      case ConfirmImport(token) => IdIsPlain(token, 64);
      case CancelImport(token) => IdIsPlain(token, 64);
      case _ =>
    }
  }

  lemma FieldsRoundTrip(action: Action)
    requires WellFormed(action) && !Bare(action)
    ensures |Fields(action)| >= 2
    ensures DecodeFields(Fields(action)[0], Fields(action)[1..]) == Ok(action)
  {
    hide SettingsFields, ReportFields, DiscoveryFields, DecodeSettings, DecodeReport, DecodeDiscovery, DecodeDashboard,
      DashboardWord, Decimal, ParsePage, IdOfAtMost;
    var rest := Fields(action)[1..];
    match action {
      case Dashboard(dashboard, page) =>
        DashboardRoundTrip(dashboard, page);
        assert rest == [DashboardWord(dashboard), Decimal(page)];
      case Settings(settings) =>
        SettingsRoundTrip(settings);
        assert rest == SettingsFields(settings);
        SubFieldsAreThere(action);
      case Report(report) =>
        ReportRoundTrip(report);
        assert rest == ReportFields(report);
        SubFieldsAreThere(action);
      case Discovery(discovery) =>
        DiscoveryRoundTrip(discovery);
        assert rest == DiscoveryFields(discovery);
        SubFieldsAreThere(action);
      case AuthPage(page) =>
        PageRoundTrip(page);
        assert rest == [Decimal(page)];
      case ConfirmDelete(token) => IdIsPlain(token, 64);
      case CancelDelete(token) => IdIsPlain(token, 64);
      case ConfirmImport(token) => IdIsPlain(token, 64);
      case CancelImport(token) => IdIsPlain(token, 64);
      case Cancel(_) =>
      case DeliverCached(_) =>
      case Get(_) =>
    }
  }

  lemma SubFieldsAreThere(action: Action)
    requires action.Settings? || action.Report? || action.Discovery?
    ensures |Fields(action)| >= 2
  {
  }

  lemma ColonIsNotBare(data: string)
    requires ':' in data
    ensures ParseBareWord(data) == None
  {
  }

  lemma ParseJoined(fields: seq<string>)
    requires |fields| >= 2 && PlainFields(fields)
    ensures Parse(Join(fields, ':')) == DecodeFields(fields[0], fields[1..])
  {
    hide DecodeFields, Split, Join, ParseBareWord;
    SplitJoined(fields);
    JoinedHasColon(fields);
    ColonIsNotBare(Join(fields, ':'));
  }

  lemma ParseBare(action: Action)
    requires Bare(action)
    ensures Parse(Encode(action)) == Ok(action)
  {
    hide DecodeFields, Split;
  }

  /** Without the cap, parsing undoes printing on every well-formed action. */
  lemma ParseEncode(action: Action)
    requires WellFormed(action)
    ensures Parse(Encode(action)) == Ok(action)
  {
    hide Fields, WellFormed, DecodeFields, Parse, Join, PlainFields;
    if Bare(action) {
      ParseBare(action);
    } else {
      FieldsRoundTrip(action);
      FieldsArePlain(action);
      ParseJoined(Fields(action));
    }
  }

  /** Printing is injective on well-formed actions of any length. */
  lemma EncodeIsInjective(a: Action, b: Action)
    requires WellFormed(a) && WellFormed(b) && Encode(a) == Encode(b)
    ensures a == b
  {
    ParseEncode(a);
    ParseEncode(b);
  }

  // ----- Whatever is accepted is well-formed and fits -----

  lemma ParsedPage(value: string)
    requires ParsePage(value).Ok?
    ensures ValidPage(ParsePage(value).value)
  {
  }

  lemma AcceptedSettings(rest: seq<string>)
    requires DecodeSettings(rest).Ok?
    ensures WellFormedSettings(DecodeSettings(rest).value)
  {
    if |rest| == 3 && ValidStorefront(rest[2]) {
      StorefrontIsPlain(rest[2]);
    }
  }

  lemma UnitedStates()
    ensures LowerStorefront("us")
  {
    assert Lower("us") == "us";
  }

  lemma AcceptedDiscovery(rest: seq<string>)
    requires DecodeDiscovery(rest).Ok?
    ensures WellFormedDiscovery(DecodeDiscovery(rest).value)
  {
    UnitedStates();
    if |rest| == 3 && ValidStorefront(rest[2]) {
      StorefrontIsPlain(rest[2]);
    }
    hide LowerStorefront;
  }

  lemma AcceptedReport(rest: seq<string>)
    requires DecodeReport(rest).Ok?
    ensures WellFormedReport(DecodeReport(rest).value)
  {
  }

  lemma AcceptedDashboard(rest: seq<string>)
    requires DecodeDashboard(rest).Ok?
    ensures WellFormed(DecodeDashboard(rest).value)
  {
    ParsedPage(rest[1]);
  }

  lemma AcceptedAuthPage(rest: seq<string>)
    requires DecodeAuthPage(rest).Ok?
    ensures WellFormed(DecodeAuthPage(rest).value)
  {
    ParsedPage(rest[0]);
  }

  lemma AcceptedFields(prefix: string, rest: seq<string>)
    requires PlainFields(rest) && DecodeFields(prefix, rest).Ok?
    ensures WellFormed(DecodeFields(prefix, rest).value)
  {
    hide DecodeSettings, DecodeReport, DecodeDiscovery, DecodeDashboard, DecodeAuthPage,
      WellFormedSettings, WellFormedReport, WellFormedDiscovery, IdOfAtMost;
    if DecodeDashboard(rest).Ok? {
      AcceptedDashboard(rest);
    }
    if DecodeAuthPage(rest).Ok? {
      AcceptedAuthPage(rest);
    }
    if DecodeSettings(rest).Ok? {
      AcceptedSettings(rest);
    }
    if DecodeReport(rest).Ok? {
      AcceptedReport(rest);
    }
    if DecodeDiscovery(rest).Ok? {
      AcceptedDiscovery(rest);
    }
  }

  lemma ParsedIsWellFormed(data: string)
    requires Parse(data).Ok?
    ensures WellFormed(Parse(data).value)
  {
    hide DecodeFields;
    if ParseBareWord(data) == None {
      hide WellFormed;
      JoinSplit(data, ':');
      AcceptedFields(Split(data, ':')[0], Split(data, ':')[1..]);
    }
  }

  // ----- Sizes -----

  function FieldBytes(fields: seq<string>): nat {
    if fields == [] then 0 else ByteLen(fields[0]) + FieldBytes(fields[1..])
  }

  lemma {:induction false} JoinedBytes(fields: seq<string>)
    requires fields != []
    ensures ByteLen(Join(fields, ':')) == FieldBytes(fields) + |fields| - 1
  {
    if |fields| == 1 {
      assert fields[1..] == [];
    } else {
      JoinedBytes(fields[1..]);
      var head, rest := fields[0], Join(fields[1..], ':');
      ByteLenConcat(head + [':'], rest);
      ByteLenConcat(head, [':']);
      assert [':'][1..] == [];
    }
  }

  lemma {:induction false} FieldBytesConcat(a: seq<string>, b: seq<string>)
    ensures FieldBytes(a + b) == FieldBytes(a) + FieldBytes(b)
  {
    if a == [] {
      assert a + b == b;
    } else {
      assert (a + b)[1..] == a[1..] + b;
      FieldBytesConcat(a[1..], b);
    }
  }

  lemma AsciiField(field: string)
    requires Ascii(field)
    ensures FieldBytes([field]) == |field|
  {
    AsciiByteLen(field);
    assert [field][1..] == [];
  }

  /** The bytes of up to four ASCII fields and the separators before them. */
  lemma AsciiFields(fields: seq<string>)
    requires 1 <= |fields| <= 4 && forall i :: 0 <= i < |fields| ==> Ascii(fields[i])
    ensures FieldBytes(fields) == |fields[0]| + (if |fields| > 1 then |fields[1]| else 0)
      + (if |fields| > 2 then |fields[2]| else 0) + (if |fields| > 3 then |fields[3]| else 0)
  {
    AsciiField(fields[0]);
    if |fields| > 1 {
      AsciiFields(fields[1..]);
      FieldBytesConcat([fields[0]], fields[1..]);
      assert [fields[0]] + fields[1..] == fields;
    } else {
      assert fields == [fields[0]];
    }
  }

  /** The size of everything behind the prefix of a payload. */
  predicate SmallRest(rest: seq<string>) {
    FieldBytes(rest) + |rest| <= 206
  }

  lemma WordsAreShort(feature: SettingFeature, reason: ReportReason)
    ensures Ascii(FeatureWord(feature)) && |FeatureWord(feature)| <= 9
    ensures Ascii(ReasonWord(reason)) && |ReasonWord(reason)| <= 10
  {
  }

  lemma SettingsAreSmall(action: SettingsAction)
    requires WellFormedSettings(action)
    ensures SmallRest(SettingsFields(action))
  {
    hide Decimal, FieldBytes, FeatureWord;
    match action {
      case Limit(limit) =>
        DecimalIsPlain(limit);
        DecimalOf64Bits(limit);
      case ToggleStorefront(storefront) => StorefrontIsPlain(storefront);
      case Toggle(feature) => WordsAreShort(feature, OtherReason);
      case _ =>
    }
    AsciiFields(SettingsFields(action));
  }

  lemma ReportsAreSmall(action: ReportAction)
    requires WellFormedReport(action)
    ensures SmallRest(ReportFields(action))
  {
    hide FieldBytes, ReasonWord;
    match action {
      case CancelReport =>
        AsciiFields(["cancel"]);
      case Submit(trackId, reason) =>
        IdIsPlain(trackId, 96);
        WordsAreShort(Apple, reason);
        AsciiFields(["sub", trackId, ReasonWord(reason)]);
      case Dismiss(reportId) =>
        IdIsPlain(reportId, 96);
        AsciiFields(["act", "dismiss", reportId]);
      case Delete(trackId, reportId) =>
        IdIsPlain(trackId, 96);
        IdIsPlain(reportId, 96);
        AsciiFields(["act", "del", trackId, reportId]);
      case Rerip(trackId, reportId) =>
        IdIsPlain(trackId, 96);
        IdIsPlain(reportId, 96);
        AsciiFields(["act", "rerip", trackId, reportId]);
    }
  }

  lemma DiscoveriesAreSmall(action: DiscoveryAction)
    requires WellFormedDiscovery(action)
    ensures SmallRest(DiscoveryFields(action))
  {
    match action {
      case CloseDiscovery =>
      case Menu =>
      case Discover(source, storefront) =>
        SourceIsPlain(source);
        StorefrontIsPlain(storefront);
      case Reroll(source, storefront) =>
        SourceIsPlain(source);
        StorefrontIsPlain(storefront);
      case Dump(albumId, storefront) =>
        IdIsPlain(albumId, 96);
        StorefrontIsPlain(storefront);
    }
    hide FieldBytes, SOURCES;
    AsciiFields(DiscoveryFields(action));
  }

  lemma PrefixedBytes(prefix: string, rest: seq<string>)
    requires |prefix| <= 16 && Ascii(prefix) && rest != [] && SmallRest(rest)
    ensures ByteLen(Join([prefix] + rest, ':')) <= 222
  {
    JoinedBytes([prefix] + rest);
    FieldBytesConcat([prefix], rest);
    AsciiField(prefix);
  }

  lemma TokenIsSmall(token: string)
    requires ValidToken(token)
    ensures SmallRest([token])
  {
    IdIsPlain(token, 64);
    AsciiFields([token]);
  }

  lemma PageIsSmall(page: nat)
    requires ValidPage(page)
    ensures SmallRest([Decimal(page)])
    ensures forall action: DashboardAction :: SmallRest([DashboardWord(action), Decimal(page)])
  {
    DecimalIsPlain(page);
    DecimalOf64Bits(page);
    hide Decimal, FieldBytes;
    AsciiFields([Decimal(page)]);
    forall action: DashboardAction ensures SmallRest([DashboardWord(action), Decimal(page)]) {
      AsciiFields([DashboardWord(action), Decimal(page)]);
    }
  }

  /** Only the job and track ids of three actions are free text; every other well-formed action fits the cap. */
  predicate FreeText(action: Action) {
    action.Cancel? || action.DeliverCached? || action.Get?
  }

  lemma FixedActionsFit(action: Action)
    requires WellFormed(action) && !FreeText(action)
    ensures ByteLen(Encode(action)) <= MAX_PAYLOAD
  {
    hide SettingsFields, ReportFields, DiscoveryFields, DashboardWord, Decimal, SmallRest, ByteLen, Join, IdOfAtMost;
    match action {
      case Dashboard(dashboard, page) =>
        PageIsSmall(page);
        PrefixedBytes("dashboard", [DashboardWord(dashboard), Decimal(page)]);
        assert ["dashboard"] + [DashboardWord(dashboard), Decimal(page)] == Fields(action);
      case Settings(settings) =>
        SettingsAreSmall(settings);
        SubFieldsAreThere(action);
        PrefixedBytes("settings", SettingsFields(settings));
      case Report(report) =>
        ReportsAreSmall(report);
        SubFieldsAreThere(action);
        PrefixedBytes("report", ReportFields(report));
      case Discovery(discovery) =>
        DiscoveriesAreSmall(discovery);
        SubFieldsAreThere(action);
        PrefixedBytes("random", DiscoveryFields(discovery));
      case AuthPage(page) =>
        PageIsSmall(page);
        PrefixedBytes("authpage", [Decimal(page)]);
        assert ["authpage"] + [Decimal(page)] == Fields(action);
      case _ => TokensAndBareActionsFit(action);
    }
  }

  lemma TokensAndBareActionsFit(action: Action)
    requires WellFormed(action)
    requires Bare(action) || action.ConfirmDelete? || action.CancelDelete? || action.ConfirmImport?
      || action.CancelImport?
    ensures ByteLen(Encode(action)) <= MAX_PAYLOAD
  {
    hide SmallRest, ByteLen, IdOfAtMost;
    match action {
      case ConfirmDelete(token) =>
        TokenIsSmall(token);
        PrefixedBytes("delete_confirm", [token]);
        assert ["delete_confirm"] + [token] == Fields(action);
      case CancelDelete(token) =>
        TokenIsSmall(token);
        PrefixedBytes("delete_cancel", [token]);
        assert ["delete_cancel"] + [token] == Fields(action);
      case ConfirmImport(token) =>
        TokenIsSmall(token);
        PrefixedBytes("import_confirm", [token]);
        assert ["import_confirm"] + [token] == Fields(action);
      case CancelImport(token) =>
        TokenIsSmall(token);
        PrefixedBytes("import_cancel", [token]);
        assert ["import_cancel"] + [token] == Fields(action);
      case _ =>
        BareBytes(Encode(action));
    }
  }

  lemma BareBytes(data: string)
    requires data == "search_close" || data == "authclose" || data == "noop"
    ensures ByteLen(data) <= MAX_PAYLOAD
  {
    AsciiByteLen(data);
  }

  // ----- The theorems -----

  lemma EncodeIsNotEmpty(action: Action)
    ensures Encode(action) != ""
  {
  }

  /** `decode(encode(a)) == Ok(a)` exactly for the well-formed actions that fit the cap. */
  lemma RoundTrip(action: Action)
    ensures Decode(Encode(action)) == Ok(action) <==> WellFormed(action) && ByteLen(Encode(action)) <= MAX_PAYLOAD
  {
    EncodeIsNotEmpty(action);
    hide Encode, WellFormed, Parse, ByteLen;
    if WellFormed(action) {
      ParseEncode(action);
    }
    if Parse(Encode(action)) == Ok(action) {
      ParsedIsWellFormed(Encode(action));
    }
  }

  /** Whatever is accepted, defaults and case folding included, survives printing and parsing again. */
  lemma AcceptedSurvives(data: string)
    requires Decode(data).Ok?
    ensures WellFormed(Decode(data).value)
    ensures Decode(Encode(Decode(data).value)) == Decode(data)
  {
    var action := Decode(data).value;
    ParsedIsWellFormed(data);
    if FreeText(action) {
      FreeTextIsVerbatim(data);
    } else {
      FixedActionsFit(action);
    }
    hide WellFormed, Encode, Decode, ByteLen, FreeText;
    RoundTrip(action);
  }

  lemma FreeTextFields(prefix: string, rest: seq<string>)
    requires DecodeFields(prefix, rest).Ok? && FreeText(DecodeFields(prefix, rest).value)
    ensures Fields(DecodeFields(prefix, rest).value) == [prefix] + rest
  {
    hide DecodeSettings, DecodeReport, DecodeDiscovery, ParsePage, ValidToken;
  }

  lemma FreeTextIsVerbatim(data: string)
    requires Parse(data).Ok? && FreeText(Parse(data).value)
    ensures Encode(Parse(data).value) == data
  {
    var parts := Split(data, ':');
    JoinSplit(data, ':');
    hide DecodeFields, Split, Join, Fields;
    FreeTextFields(parts[0], parts[1..]);
    assert [parts[0]] + parts[1..] == parts;
  }

  // ----- What is accepted, and why the rest is not -----

  predicate SpellsStorefront(value: string, storefront: string) {
    ValidStorefront(value) && Lower(value) == storefront
  }

  predicate SpellsSettings(rest: seq<string>, action: SettingsAction) {
    match action
    case Limit(limit) => |rest| == 2 && rest[0] == "limit" && ParseUnsigned(rest[1], U32) == Some(limit)
    case ToggleStorefront(storefront) =>
      |rest| == 3 && rest[0] == "sf" && rest[1] == "toggle" && SpellsStorefront(rest[2], storefront)
    case _ => rest == SettingsFields(action)
  }

  /** A storefront is written in either case; without one a discovery or a reroll means the United States. */
  predicate SpellsDiscovery(rest: seq<string>, action: DiscoveryAction) {
    match action
    case Discover(source, storefront) =>
      && |rest| >= 2 && rest[0] == "src" && rest[1] == source
      && ((|rest| == 2 && storefront == "us") || (|rest| == 3 && SpellsStorefront(rest[2], storefront)))
    case Reroll(source, storefront) =>
      && |rest| >= 2 && rest[0] == "reroll" && rest[1] == source
      && ((|rest| == 2 && storefront == "us") || (|rest| == 3 && SpellsStorefront(rest[2], storefront)))
    case Dump(albumId, storefront) =>
      |rest| == 3 && rest[0] == "dump" && rest[1] == albumId && SpellsStorefront(rest[2], storefront)
    case _ => rest == DiscoveryFields(action)
  }

  /** The fields say this action: as printed, but for the case of storefronts and the way numbers are written. */
  predicate Spells(fields: seq<string>, action: Action) {
    && fields != [] && fields[0] == Fields(action)[0]
    && match action
       case Dashboard(dashboard, page) =>
         |fields| == 3 && fields[1] == DashboardWord(dashboard) && ParseUnsigned(fields[2], U64) == Some(page)
       case AuthPage(page) => |fields| == 2 && ParseUnsigned(fields[1], U64) == Some(page)
       case Settings(settings) => SpellsSettings(fields[1..], settings)
       case Discovery(discovery) => SpellsDiscovery(fields[1..], discovery)
       case _ => fields == Fields(action)
  }

  lemma SettingsAcceptedIff(rest: seq<string>, action: SettingsAction)
    ensures DecodeSettings(rest) == Ok(action) <==> WellFormedSettings(action) && SpellsSettings(rest, action)
  {
    hide Decimal, ParseUnsigned;
    if DecodeSettings(rest) == Ok(action) {
      AcceptedSettings(rest);
    } else if WellFormedSettings(action) && rest == SettingsFields(action) {
      SettingsRoundTrip(action);
    }
  }

  lemma DiscoveryAcceptedIff(rest: seq<string>, action: DiscoveryAction)
    ensures DecodeDiscovery(rest) == Ok(action) <==> WellFormedDiscovery(action) && SpellsDiscovery(rest, action)
  {
    hide SOURCES;
    if DecodeDiscovery(rest) == Ok(action) {
      AcceptedDiscovery(rest);
    }
  }

  lemma ReportAcceptedIff(rest: seq<string>, action: ReportAction)
    ensures DecodeReport(rest) == Ok(action) <==> WellFormedReport(action) && rest == ReportFields(action)
  {
    if DecodeReport(rest) == Ok(action) {
      AcceptedReport(rest);
    } else if WellFormedReport(action) && rest == ReportFields(action) {
      ReportRoundTrip(action);
    }
  }

  lemma PageAcceptedIff(value: string, page: nat)
    ensures ParsePage(value) == Ok(page) <==> ValidPage(page) && ParseUnsigned(value, U64) == Some(page)
  {
  }

  lemma DashboardAcceptedIff(rest: seq<string>, action: Action)
    ensures DecodeDashboard(rest) == Ok(action) <==>
      && action.Dashboard? && ValidPage(action.page)
      && |rest| == 2 && rest[0] == DashboardWord(action.dashboard) && ParseUnsigned(rest[1], U64) == Some(action.page)
  {
    hide ParsePage, ParseUnsigned, ValidPage;
    if |rest| == 2 && action.Dashboard? {
      PageAcceptedIff(rest[1], action.page);
    }
  }

  lemma AuthPageAcceptedIff(rest: seq<string>, action: Action)
    ensures DecodeAuthPage(rest) == Ok(action) <==>
      && action.AuthPage? && ValidPage(action.page)
      && |rest| == 1 && ParseUnsigned(rest[0], U64) == Some(action.page)
  {
    hide ParsePage, ParseUnsigned, ValidPage;
    if |rest| == 1 && action.AuthPage? {
      PageAcceptedIff(rest[0], action.page);
      if rest[0] == "" {
        EmptyIsNoNumber(U64);
      }
    }
  }

  lemma EmptyIsNoNumber(bound: nat)
    ensures ParseUnsigned("", bound) == None
  {
  }

  lemma TokenIsNotEmpty(token: string)
    ensures ValidToken(token) ==> token != ""
  {
  }

  lemma FieldsAcceptedIff(prefix: string, rest: seq<string>, action: Action)
    requires PlainFields(rest)
    ensures DecodeFields(prefix, rest) == Ok(action) <==>
      !Bare(action) && WellFormed(action) && Spells([prefix] + rest, action)
  {
    hide DecodeSettings, DecodeReport, DecodeDiscovery, DecodeDashboard, DecodeAuthPage, IdOfAtMost, ParseUnsigned,
      WellFormedSettings, WellFormedReport, WellFormedDiscovery, SpellsSettings, SpellsDiscovery,
      SettingsFields, ReportFields, DiscoveryFields, DashboardWord, Decimal;
    assert ([prefix] + rest)[1..] == rest;
    DashboardAcceptedIff(rest, action);
    AuthPageAcceptedIff(rest, action);
    match action {
      case Settings(settings) => SettingsAcceptedIff(rest, settings);
      case Report(report) => ReportAcceptedIff(rest, report);
      case Discovery(discovery) => DiscoveryAcceptedIff(rest, discovery);
      case ConfirmDelete(token) => TokenIsNotEmpty(token);
      case CancelDelete(token) => TokenIsNotEmpty(token);
      case ConfirmImport(token) => TokenIsNotEmpty(token);
      case CancelImport(token) => TokenIsNotEmpty(token);
      case _ =>
    }
  }

  lemma BareWordIff(data: string, action: Action)
    ensures ParseBareWord(data) == Some(action) <==> Bare(action) && [data] == Fields(action)
  {
  }

  /** A bare word is no other action. */
  lemma BareSpells(fields: seq<string>, bare: Action, action: Action)
    requires Bare(bare) && fields == Fields(bare)
    ensures WellFormed(action) && Spells(fields, action) <==> action == bare
  {
    hide DashboardWord, Decimal, ParseUnsigned, IdOfAtMost, WellFormedSettings, WellFormedReport, WellFormedDiscovery,
      SettingsFields, ReportFields, DiscoveryFields, SpellsSettings, SpellsDiscovery;
    if action.Settings? || action.Report? || action.Discovery? {
      SubFieldsAreThere(action);
    }
  }

  lemma SpelledBare(fields: seq<string>, action: Action)
    requires Bare(action)
    ensures Spells(fields, action) <==> fields == Fields(action)
    ensures WellFormed(action) && |Fields(action)| == 1 && ':' !in Fields(action)[0]
  {
  }

  /** A callback is read as an action exactly when it is not empty, fits the cap and spells a well-formed action. */
  lemma AcceptedIff(data: string, action: Action)
    ensures Decode(data) == Ok(action) <==>
      data != "" && ByteLen(data) <= 256 && WellFormed(action) && Spells(Split(data, ':'), action)
  {
    hide DecodeFields, WellFormed, Split, Fields, ByteLen, ParseBareWord, Spells, Bare;
    var fields := Split(data, ':');
    JoinSplit(data, ':');
    BareWordIff(data, action);
    match ParseBareWord(data) {
      case Some(bare) =>
        BareWordIff(data, bare);
        SpelledBare([data], bare);
        SplitWhole(data, ':');
        BareSpells([data], bare, action);
      case None =>
        assert [fields[0]] + fields[1..] == fields;
        FieldsAcceptedIff(fields[0], fields[1..], action);
        if Bare(action) {
          SpelledBare(fields, action);
        }
    }
  }

  /** A known prefix whose single field is wrong, a dashboard without its page, or a limit that is no number. */
  predicate HasBadField(fields: seq<string>)
    requires fields != []
  {
    || fields[0] == "cancel" || fields[0] == "cached" || fields[0] == "get" || fields[0] == "authpage"
    || fields[0] == "delete_confirm" || fields[0] == "delete_cancel"
    || fields[0] == "import_confirm" || fields[0] == "import_cancel"
    || (fields[0] == "dashboard"
        && (|fields| != 3 || fields[1] == "prev" || fields[1] == "next" || fields[1] == "refresh"))
    || (fields[0] == "settings" && |fields| == 3 && fields[1] == "limit")
  }

  lemma RefusedParts(rest: seq<string>)
    ensures DecodeDashboard(rest).Err? ==>
      DecodeDashboard(rest).error ==
        if |rest| != 2 || rest[0] == "prev" || rest[0] == "next" || rest[0] == "refresh" then Malformed else Unknown
    ensures DecodeSettings(rest).Err? ==>
      DecodeSettings(rest).error == if |rest| == 2 && rest[0] == "limit" then Malformed else Unknown
    ensures DecodeReport(rest).Err? ==> DecodeReport(rest).error == Unknown
    ensures DecodeDiscovery(rest).Err? ==> DecodeDiscovery(rest).error == Unknown
    ensures DecodeAuthPage(rest).Err? ==> DecodeAuthPage(rest).error == Malformed
  {
    hide ParseUnsigned, IdOfAtMost, SOURCES, Lower, ValidStorefront;
  }

  lemma RefusedFields(prefix: string, rest: seq<string>)
    requires DecodeFields(prefix, rest).Err?
    ensures DecodeFields(prefix, rest).error == if HasBadField([prefix] + rest) then Malformed else Unknown
  {
    hide DecodeSettings, DecodeReport, DecodeDiscovery, DecodeDashboard, DecodeAuthPage, ValidToken;
    RefusedParts(rest);
  }

  /** Every refusal has one cause, and the cause decides the error. */
  lemma RefusalsAreExplained(data: string)
    requires Decode(data).Err?
    ensures Decode(data).error ==
      if data == "" then Empty
      else if ByteLen(data) > 256 then Oversized
      else if HasBadField(Split(data, ':')) then Malformed
      else Unknown
  {
    hide DecodeFields, ByteLen, HasBadField;
    var fields := Split(data, ':');
    assert [fields[0]] + fields[1..] == fields;
    if DecodeFields(fields[0], fields[1..]).Err? {
      RefusedFields(fields[0], fields[1..]);
    }
  }
}
