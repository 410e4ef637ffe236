/**
 * The body of CheckJagexVersion.Run: read the launcher metadata, compare it with the
 * version state kept in the blob, post a Discord notice for each environment whose
 * id changed (production first), and overwrite the blob when anything was posted.
 * Every failure is caught by the one catch-all and only logged.
 *
 * The outside world (the blob and the webhook) is the class World. What can fail is
 * passed in: the metadata response (None when the GET throws), the JSON parser, and a
 * Faults record saying which store, post and upload calls throw. The function Outcome
 * specifies a run; the method Run is proved to behave as Outcome says.
 */
module RevisionChecker {
  import opened Wrappers
  import Base64
  import Jwt
  import Json

  type NullableString = Json.NullableString

  /** The blob's content: the ids seen by the last run that uploaded. */
  datatype VersionState = VersionState(lastProductionId: NullableString, lastStagingId: NullableString)

  /** The five strings read from the metadata document; GetString yields null for a JSON null. */
  datatype Metadata = Metadata(
    productionId: NullableString,
    productionVersion: NullableString,
    productionPreviousVersion: NullableString,
    stagingId: NullableString,
    stagingVersion: NullableString)

  /** The exception that ended a run, grouped by the call that threw it. */
  datatype Fault =
    | FetchFailed
    | InvalidToken(token: Jwt.TokenError)
    | InvalidJson
    | SchemaMismatch(access: Json.AccessError)
    | StoreFailed
    | PostFailed
    | UploadFailed

  datatype Channel = Production | Staging

  /** A message meant for the webhook, tagged with the environment it announces. */
  datatype Notice = Notice(channel: Channel, text: string)

  /**
   * Which calls throw: the container and blob reads (creating the container, ExistsAsync,
   * OpenReadAsync, deserializing), the PostAsync of a channel's notice, and UploadAsync.
   */
  datatype Faults = Faults(storeFails: bool, failingPosts: set<Channel>, uploadFails: bool)

  const NoFaults: Faults := Faults(false, {}, false)

  /** What a run does to the outside world, in order. */
  datatype Effect = Posted(message: string) | Uploaded(state: VersionState)

  /** The line a run ends by logging: "Updated ...", "No updates detected." or the error. */
  datatype Report = Updated | NoUpdates | Failed(fault: Fault)

  datatype RunEffect = RunEffect(effects: seq<Effect>, report: Report)

  // ---------------------------------------------------------------- metadata

  /** The five GetProperty chains, in the order the code evaluates them. */
  function Extract(root: Json.Value): (r: Result<Metadata, Json.AccessError>)
    ensures !root.Object? ==> r == Failure(Json.NotAnObject)
    ensures root.Object? && !Json.HasMember(root.members, "environments") ==> r == Failure(Json.PropertyNotFound("environments"))
  {
    var environments :- Json.GetProperty(root, "environments");
    var productionId :- Json.StringAt(environments, ["production", "id"]);
    var productionVersion :- Json.StringAt(environments, ["production", "version"]);
    var productionPreviousVersion :- Json.StringAt(environments, ["production-last", "version"]);
    var stagingId :- Json.StringAt(environments, ["staging", "id"]);
    var stagingVersion :- Json.StringAt(environments, ["staging", "version"]);
    Success(Metadata(productionId, productionVersion, productionPreviousVersion, stagingId, stagingVersion))
  }

  /** A metadata document holding exactly the fields the revision checker reads. */
  function Document(m: Metadata): Json.Value {
    Json.Object([Json.Member("environments", Environments(m))])
  }

  /** The "environments" object of Document. */
  function Environments(m: Metadata): Json.Value {
    EnvironmentsWith(m, IdVersion(m.stagingId, m.stagingVersion))
  }

  /** An "environments" object with the production fields of m and the given staging object. */
  function EnvironmentsWith(m: Metadata, staging: Json.Value): Json.Value {
    Json.Object([
      Json.Member("production", IdVersion(m.productionId, m.productionVersion)),
      Json.Member("production-last", PreviousVersion(m)),
      Json.Member("staging", staging)])
  }

  /** The "production-last" object: only a version. */
  function PreviousVersion(m: Metadata): Json.Value {
    Json.Object([Json.Member("version", Json.FromText(m.productionPreviousVersion))])
  }

  /** An environment object: {"id": ..., "version": ...}. */
  function IdVersion(id: NullableString, version: NullableString): Json.Value {
    Json.Object([Json.Member("id", Json.FromText(id)), Json.Member("version", Json.FromText(version))])
  }

  /** Both fields of an environment object are found under their names. */
  lemma IdVersionMembers(id: NullableString, version: NullableString)
    ensures Json.GetProperty(IdVersion(id, version), "id") == Success(Json.FromText(id))
    ensures Json.GetProperty(IdVersion(id, version), "version") == Success(Json.FromText(version))
  {
    var first, second := Json.Member("id", Json.FromText(id)), Json.Member("version", Json.FromText(version));
    assert [first, second] == [] + [first] + [second] == [first] + [second] + [];
    Json.LastDuplicateWins([], Json.FromText(id), [second], "id");
    Json.LastDuplicateWins([first], Json.FromText(version), [], "version");
  }

  /** The three environments are found under their names. */
  lemma EnvironmentMembers(m: Metadata, staging: Json.Value)
    ensures Json.GetProperty(EnvironmentsWith(m, staging), "production") == Success(IdVersion(m.productionId, m.productionVersion))
    ensures Json.GetProperty(EnvironmentsWith(m, staging), "production-last") == Success(PreviousVersion(m))
    ensures Json.GetProperty(EnvironmentsWith(m, staging), "staging") == Success(staging)
  {
    var p := IdVersion(m.productionId, m.productionVersion);
    var pl := PreviousVersion(m);
    var mp, mpl, mst := Json.Member("production", p), Json.Member("production-last", pl), Json.Member("staging", staging);
    assert "production" != "staging" && "production-last" != "staging" && "production" != "production-last";
    assert [mp, mpl, mst] == [] + [mp] + [mpl, mst] == [mp] + [mpl] + [mst] == [mp, mpl] + [mst] + [];
    Json.LastDuplicateWins([], p, [mpl, mst], "production");
    Json.LastDuplicateWins([mp], pl, [mst], "production-last");
    Json.LastDuplicateWins([mp, mpl], staging, [], "staging");
  }

  /** The three production paths yield their fields of m, whatever the staging object. */
  lemma ProductionPaths(m: Metadata, staging: Json.Value)
    ensures Json.StringAt(EnvironmentsWith(m, staging), ["production", "id"]) == Success(m.productionId)
    ensures Json.StringAt(EnvironmentsWith(m, staging), ["production", "version"]) == Success(m.productionVersion)
    ensures Json.StringAt(EnvironmentsWith(m, staging), ["production-last", "version"]) == Success(m.productionPreviousVersion)
  {
    var env := EnvironmentsWith(m, staging);
    var p := IdVersion(m.productionId, m.productionVersion);
    var pl := PreviousVersion(m);
    EnvironmentMembers(m, staging);
    IdVersionMembers(m.productionId, m.productionVersion);
    assert Json.GetProperty(pl, "version") == Success(Json.FromText(m.productionPreviousVersion));
    Json.StringAtNames(env, "production", "id", p, Json.FromText(m.productionId));
    Json.StringAtNames(env, "production", "version", p, Json.FromText(m.productionVersion));
    Json.StringAtNames(env, "production-last", "version", pl, Json.FromText(m.productionPreviousVersion));
    Json.GetStringFromText(m.productionId);
    Json.GetStringFromText(m.productionVersion);
    Json.GetStringFromText(m.productionPreviousVersion);
  }

  /** Each of the five paths Extract reads yields its field of m. */
  lemma PathsOfEnvironments(m: Metadata)
    ensures Json.StringAt(Environments(m), ["production", "id"]) == Success(m.productionId)
    ensures Json.StringAt(Environments(m), ["production", "version"]) == Success(m.productionVersion)
    ensures Json.StringAt(Environments(m), ["production-last", "version"]) == Success(m.productionPreviousVersion)
    ensures Json.StringAt(Environments(m), ["staging", "id"]) == Success(m.stagingId)
    ensures Json.StringAt(Environments(m), ["staging", "version"]) == Success(m.stagingVersion)
  {
    var st := IdVersion(m.stagingId, m.stagingVersion);
    var env := Environments(m);
    ProductionPaths(m, st);
    EnvironmentMembers(m, st);
    IdVersionMembers(m.stagingId, m.stagingVersion);
    Json.StringAtNames(env, "staging", "id", st, Json.FromText(m.stagingId));
    Json.StringAtNames(env, "staging", "version", st, Json.FromText(m.stagingVersion));
    Json.GetStringFromText(m.stagingId);
    Json.GetStringFromText(m.stagingVersion);
  }

  /** Extract reads back every field of the document Document writes, nulls included. */
  lemma ExtractDocument(m: Metadata)
    ensures Extract(Document(m)) == Success(m)
  {
    assert Json.GetProperty(Document(m), "environments") == Success(Environments(m));
    PathsOfEnvironments(m);
  }

  /**
   * Extract succeeds exactly when "environments" and all five paths below it can be read,
   * and it then yields the five strings read; any missing property or non-string leaf fails it.
   */
  lemma ExtractSucceedsIff(root: Json.Value)
    ensures Extract(root).Success? <==>
      && Json.GetProperty(root, "environments").Success?
      && var env := Json.GetProperty(root, "environments").value;
         && Json.StringAt(env, ["production", "id"]).Success?
         && Json.StringAt(env, ["production", "version"]).Success?
         && Json.StringAt(env, ["production-last", "version"]).Success?
         && Json.StringAt(env, ["staging", "id"]).Success?
         && Json.StringAt(env, ["staging", "version"]).Success?
    ensures Extract(root).Success? ==>
      var env := Json.GetProperty(root, "environments").value;
      Extract(root).value == Metadata(
        Json.StringAt(env, ["production", "id"]).value,
        Json.StringAt(env, ["production", "version"]).value,
        Json.StringAt(env, ["production-last", "version"]).value,
        Json.StringAt(env, ["staging", "id"]).value,
        Json.StringAt(env, ["staging", "version"]).value)
  {
    var environments := Json.GetProperty(root, "environments");
    if environments.Success? {
      var env := environments.value;
      assert Extract(root) == (
        var productionId :- Json.StringAt(env, ["production", "id"]);
        var productionVersion :- Json.StringAt(env, ["production", "version"]);
        var productionPreviousVersion :- Json.StringAt(env, ["production-last", "version"]);
        var stagingId :- Json.StringAt(env, ["staging", "id"]);
        var stagingVersion :- Json.StringAt(env, ["staging", "version"]);
        Success(Metadata(productionId, productionVersion, productionPreviousVersion, stagingId, stagingVersion)));
    }
  }

  /** The metadata document of m with the staging "id" left out. */
  function DocumentWithoutStagingId(m: Metadata): Json.Value {
    Json.Object([Json.Member("environments",
      EnvironmentsWith(m, Json.Object([Json.Member("version", Json.FromText(m.stagingVersion))])))])
  }

  /** Line 38 throws KeyNotFoundException when the staging object has no "id". */
  lemma ExtractMissingStagingId(m: Metadata)
    ensures Extract(DocumentWithoutStagingId(m)) == Failure(Json.PropertyNotFound("id"))
  {
    var st := Json.Object([Json.Member("version", Json.FromText(m.stagingVersion))]);
    var env := EnvironmentsWith(m, st);
    assert Json.GetProperty(DocumentWithoutStagingId(m), "environments") == Success(env);
    ProductionPaths(m, st);
    StagingIdMissing(m, st);
  }

  /** The staging id path of an "environments" object whose staging object has no "id" fails. */
  lemma StagingIdMissing(m: Metadata, st: Json.Value)
    requires st == Json.Object([Json.Member("version", Json.FromText(m.stagingVersion))])
    ensures Json.StringAt(EnvironmentsWith(m, st), ["staging", "id"]) == Failure(Json.PropertyNotFound("id"))
  {
    EnvironmentMembers(m, st);
    assert !Json.HasMember(st.members, "id") by {
      assert st.members[0].name == "version" != "id";
    }
    assert ["staging", "id"][1..] == ["id"];
  }

  /** Lines 30-39: the GET, DecodeJwtPayload, JsonDocument.Parse and the five reads. */
  function ReadMetadata(response: Option<string>, parse: seq<Base64.Byte> -> Option<Json.Value>): (r: Result<Metadata, Fault>)
    ensures response.None? ==> r == Failure(FetchFailed)
    ensures r.Success? ==> response.Some? && Jwt.DecodePayload(response.value).Success?
  {
    if response.None? then Failure(FetchFailed)
    else
      match Jwt.DecodePayload(response.value)
      case Failure(e) => Failure(InvalidToken(e))
      case Success(bytes) =>
        match parse(bytes)
        case None => Failure(InvalidJson)
        case Some(root) =>
          match Extract(root)
          case Failure(e) => Failure(SchemaMismatch(e))
          case Success(m) => Success(m)
  }

  /** A token whose payload is the encoded document of m yields m. */
  lemma ReadMetadataOfToken(m: Metadata, payload: seq<Base64.Byte>, header: string, signature: string,
                            parse: seq<Base64.Byte> -> Option<Json.Value>)
    requires '.' !in header && parse(payload) == Some(Document(m))
    ensures ReadMetadata(Some(header + "." + Jwt.StripPadding(Base64.Encode(payload)) + "." + signature), parse) == Success(m)
  {
    Jwt.TokenRoundTrip(payload, header, signature);
    ExtractDocument(m);
  }

  /**
   * A token whose document lacks the staging id makes the run fail before it reads the
   * blob: nothing is posted, nothing is written, whatever else would throw.
   */
  lemma MissingStagingIdFailsRun(m: Metadata, payload: seq<Base64.Byte>, header: string, signature: string,
                                 parse: seq<Base64.Byte> -> Option<Json.Value>,
                                 current: Option<VersionState>, faults: Faults)
    requires '.' !in header && parse(payload) == Some(DocumentWithoutStagingId(m))
    ensures Outcome(current, Some(header + "." + Jwt.StripPadding(Base64.Encode(payload)) + "." + signature), parse, faults)
            == RunEffect([], Failed(SchemaMismatch(Json.PropertyNotFound("id"))))
  {
    Jwt.TokenRoundTrip(payload, header, signature);
    ExtractMissingStagingId(m);
  }

  // ---------------------------------------------------------------- notices

  /** The first line of a notice (lines 62 and 68): the environment's emoji and its name in bold. */
  function Heading(icon: char, environment: string): string {
    [icon] + " New Native Client **" + environment + "** version detected!\n"
  }
  const ProductionHeading: string := Heading('\U{1F680}', "Production")
  const StagingHeading: string := Heading('\U{1F9EA}', "Staging")

  /** A C# interpolation hole: null is written as nothing. */
  function Text(s: NullableString): string {
    match s
    case Some(t) => t
    case None => ""
  }

  /** Line 62: the heading, then the previous and the new version, each in backticks. */
  function ProductionNotice(m: Metadata): string {
    ProductionHeading + "`" + Text(m.productionPreviousVersion) + "` -> `" + Text(m.productionVersion) + "`"
  }

  /** Line 68: the heading, then the new staging version in backticks. */
  function StagingNotice(m: Metadata): string {
    StagingHeading + "`" + Text(m.stagingVersion) + "`"
  }

  /**
   * Split on backticks, a production notice gives back its heading, the previous
   * version, the arrow and the new version, in that order, when the versions hold no backtick.
   */
  lemma ProductionNoticeFields(m: Metadata)
    requires '`' !in Text(m.productionPreviousVersion) && '`' !in Text(m.productionVersion)
    ensures Jwt.Split(ProductionNotice(m), '`') ==
            [ProductionHeading, Text(m.productionPreviousVersion), " -> ", Text(m.productionVersion), ""]
  {
    var prev, next := Text(m.productionPreviousVersion), Text(m.productionVersion);
    var arrow := " -> ";
    assert '`' !in ProductionHeading;
    assert '`' !in arrow;
    assert ProductionNotice(m) == ProductionHeading + ['`'] + (prev + ['`'] + (arrow + ['`'] + (next + ['`'] + [])));
    Jwt.SplitWhole([], '`');
    Jwt.SplitAfter(next, [], '`');
    Jwt.SplitAfter(arrow, next + ['`'] + [], '`');
    Jwt.SplitAfter(prev, arrow + ['`'] + (next + ['`'] + []), '`');
    Jwt.SplitAfter(ProductionHeading, prev + ['`'] + (arrow + ['`'] + (next + ['`'] + [])), '`');
  }

  /** Split on backticks, a staging notice gives back its heading and the new version. */
  lemma StagingNoticeFields(m: Metadata)
    requires '`' !in Text(m.stagingVersion)
    ensures Jwt.Split(StagingNotice(m), '`') == [StagingHeading, Text(m.stagingVersion), ""]
  {
    var next := Text(m.stagingVersion);
    assert '`' !in StagingHeading;
    assert StagingNotice(m) == StagingHeading + ['`'] + (next + ['`'] + []);
    Jwt.SplitWhole([], '`');
    Jwt.SplitAfter(next, [], '`');
    Jwt.SplitAfter(StagingHeading, next + ['`'] + [], '`');
  }

  /** The two notices can never be mistaken for each other: they start with different emoji. */
  lemma NoticesDistinct(m: Metadata, m': Metadata)
    ensures ProductionNotice(m) != StagingNotice(m')
  {
    assert ProductionNotice(m)[0] == ProductionHeading[0];
    assert StagingNotice(m')[0] == StagingHeading[0];
  }

  // ---------------------------------------------------------------- one run

  /** Line 60: no state yet, or the production id differs (C# string equality, null included). */
  predicate ProductionChanged(current: Option<VersionState>, m: Metadata) {
    current.None? || current.value.lastProductionId != m.productionId
  }

  /** Line 66: the same for the staging id. */
  predicate StagingChanged(current: Option<VersionState>, m: Metadata) {
    current.None? || current.value.lastStagingId != m.stagingId
  }

  /** Lines 54-58: the state written after notifying. */
  function NewState(m: Metadata): (s: VersionState)
    ensures !ProductionChanged(Some(s), m) && !StagingChanged(Some(s), m)
  {
    VersionState(m.productionId, m.stagingId)
  }

  /** The notices a run means to post, production first. */
  function Notices(current: Option<VersionState>, m: Metadata): (planned: seq<Notice>)
    ensures |planned| <= 2
    ensures planned != [] <==> ProductionChanged(current, m) || StagingChanged(current, m)
  {
    (if ProductionChanged(current, m) then [Notice(Production, ProductionNotice(m))] else []) +
    (if StagingChanged(current, m) then [Notice(Staging, StagingNotice(m))] else [])
  }

  /**
   * Posting the planned notices one after another and then uploading the new state:
   * the first post that throws ends the run, and so does a throwing upload.
   */
  function Deliver(planned: seq<Notice>, state: VersionState, faults: Faults): (r: RunEffect)
    ensures r.report != NoUpdates
    ensures |r.effects| <= |planned| + 1
    decreases |planned|
  {
    if planned == [] then
      if faults.uploadFails then RunEffect([], Failed(UploadFailed)) else RunEffect([Uploaded(state)], Updated)
    else if planned[0].channel in faults.failingPosts then RunEffect([], Failed(PostFailed))
    else
      var rest := Deliver(planned[1..], state, faults);
      RunEffect([Posted(planned[0].text)] + rest.effects, rest.report)
  }

  /**
   * What Deliver does: it posts a prefix of the planned notices, in order, and uploads
   * the state last, only when every post went out and the upload did not throw.
   */
  lemma {:induction false} DeliverShape(planned: seq<Notice>, state: VersionState, faults: Faults)
    ensures var r := Deliver(planned, state, faults);
      && r.report in {Updated, Failed(PostFailed), Failed(UploadFailed)}
      && (forall i :: 0 <= i < |r.effects| && r.effects[i].Posted? ==>
            i < |planned| && r.effects[i] == Posted(planned[i].text) && planned[i].channel !in faults.failingPosts)
      && (forall i :: 0 <= i < |r.effects| && r.effects[i].Uploaded? ==>
            r.report == Updated && i == |planned| && r.effects[i] == Uploaded(state))
      && (r.report == Updated <==> |r.effects| == |planned| + 1)
      && (r.report == Failed(PostFailed) <==> exists i :: 0 <= i < |planned| && planned[i].channel in faults.failingPosts)
      && (r.report != Failed(PostFailed) ==> |r.effects| >= |planned|)
    decreases |planned|
  {
    if planned != [] && planned[0].channel !in faults.failingPosts {
      DeliverShape(planned[1..], state, faults);
      assert forall i :: 1 <= i < |planned| ==> planned[1..][i - 1] == planned[i];
    }
  }

  /** One step of Deliver: the first notice is posted unless its post throws. */
  lemma DeliverStep(n: Notice, rest: seq<Notice>, state: VersionState, faults: Faults)
    ensures Deliver([n] + rest, state, faults) ==
            if n.channel in faults.failingPosts then RunEffect([], Failed(PostFailed))
            else RunEffect([Posted(n.text)] + Deliver(rest, state, faults).effects, Deliver(rest, state, faults).report)
  {
    assert ([n] + rest)[1..] == rest;
  }

  /**
   * Lines 26-86 as a specification: what a run posts and uploads, and the line it logs,
   * given the blob's content before the run.
   */
  function Outcome(current: Option<VersionState>, response: Option<string>,
                   parse: seq<Base64.Byte> -> Option<Json.Value>, faults: Faults): (r: RunEffect)
    ensures response.None? ==> r == RunEffect([], Failed(FetchFailed))
    ensures faults.storeFails ==> r.effects == [] && r.report.Failed?
  {
    match ReadMetadata(response, parse)
    case Failure(f) => RunEffect([], Failed(f))
    case Success(m) => if faults.storeFails then RunEffect([], Failed(StoreFailed)) else Update(current, m, faults)
  }

  /** Lines 53-81: post the notices the ids call for, then upload the new state if any went out. */
  function Update(current: Option<VersionState>, m: Metadata, faults: Faults): (r: RunEffect)
    ensures r.report == NoUpdates <==> Notices(current, m) == []
    ensures r.report == NoUpdates ==> r.effects == []
  {
    if Notices(current, m) == [] then RunEffect([], NoUpdates)
    else Deliver(Notices(current, m), NewState(m), faults)
  }

  /** The posts of the notices a run plans, production first. */
  function PlannedPosts(current: Option<VersionState>, m: Metadata): seq<Effect> {
    (if ProductionChanged(current, m) then [Posted(ProductionNotice(m))] else []) +
    (if StagingChanged(current, m) then [Posted(StagingNotice(m))] else [])
  }

  /** Update case by case, in the terms of the code's branches. */
  lemma UpdateCases(current: Option<VersionState>, m: Metadata, faults: Faults)
    ensures var pc, sc := ProductionChanged(current, m), StagingChanged(current, m);
      && (pc && Production in faults.failingPosts ==>
            Update(current, m, faults) == RunEffect([], Failed(PostFailed)))
      && (pc && Production !in faults.failingPosts && sc && Staging in faults.failingPosts ==>
            Update(current, m, faults) == RunEffect([Posted(ProductionNotice(m))], Failed(PostFailed)))
      && (!pc && sc && Staging in faults.failingPosts ==>
            Update(current, m, faults) == RunEffect([], Failed(PostFailed)))
      && (!pc && !sc ==> Update(current, m, faults) == RunEffect([], NoUpdates))
      && ((pc || sc) && !(pc && Production in faults.failingPosts) && !(sc && Staging in faults.failingPosts) ==>
            Update(current, m, faults) ==
              if faults.uploadFails then RunEffect(PlannedPosts(current, m), Failed(UploadFailed))
              else RunEffect(PlannedPosts(current, m) + [Uploaded(NewState(m))], Updated))
  {
    var pn, sn := Notice(Production, ProductionNotice(m)), Notice(Staging, StagingNotice(m));
    var state := NewState(m);
    DeliverStep(sn, [], state, faults);
    if ProductionChanged(current, m) {
      if StagingChanged(current, m) {
        assert Notices(current, m) == [pn] + [sn];
        DeliverStep(pn, [sn], state, faults);
      } else {
        assert Notices(current, m) == [pn] + [];
        DeliverStep(pn, [], state, faults);
      }
    } else if StagingChanged(current, m) {
      assert Notices(current, m) == [sn] + [];
    }
  }

  lemma CaseProductionFails(current: Option<VersionState>, m: Metadata, faults: Faults)
    requires ProductionChanged(current, m) && Production in faults.failingPosts
    ensures Update(current, m, faults) == RunEffect([], Failed(PostFailed))
  { UpdateCases(current, m, faults); }
  lemma CaseStagingFails(current: Option<VersionState>, m: Metadata, faults: Faults)
    requires !(ProductionChanged(current, m) && Production in faults.failingPosts)
    requires StagingChanged(current, m) && Staging in faults.failingPosts
    ensures Update(current, m, faults) == RunEffect(if ProductionChanged(current, m) then [Posted(ProductionNotice(m))] else [], Failed(PostFailed))
  { UpdateCases(current, m, faults); }
  lemma CaseNone(current: Option<VersionState>, m: Metadata, faults: Faults)
    requires !ProductionChanged(current, m) && !StagingChanged(current, m)
    ensures Update(current, m, faults) == RunEffect([], NoUpdates)
  { UpdateCases(current, m, faults); }
  lemma CaseUpload(current: Option<VersionState>, m: Metadata, faults: Faults)
    requires ProductionChanged(current, m) || StagingChanged(current, m)
    requires !(ProductionChanged(current, m) && Production in faults.failingPosts)
    requires !(StagingChanged(current, m) && Staging in faults.failingPosts)
    ensures Update(current, m, faults) ==
              if faults.uploadFails then RunEffect(PlannedPosts(current, m), Failed(UploadFailed))
              else RunEffect(PlannedPosts(current, m) + [Uploaded(NewState(m))], Updated)
  { UpdateCases(current, m, faults); }

  /** The blob's content after some effects: the last upload overwrites it whole. */
  function Apply(blob: Option<VersionState>, effects: seq<Effect>): Option<VersionState>
    decreases |effects|
  {
    if effects == [] then blob
    else
      match effects[|effects| - 1]
      case Uploaded(s) => Some(s)
      case Posted(_) => Apply(blob, effects[..|effects| - 1])
  }

  /** Applying two traces one after the other is applying their concatenation. */
  lemma {:induction false} ApplyConcat(blob: Option<VersionState>, first: seq<Effect>, second: seq<Effect>)
    ensures Apply(blob, first + second) == Apply(Apply(blob, first), second)
    decreases |second|
  {
    var all := first + second;
    if second == [] {
      assert all == first;
    } else {
      var n := |second| - 1;
      assert all[|all| - 1] == second[n];
      assert all[..|all| - 1] == first + second[..n];
      ApplyConcat(blob, first, second[..n]);
    }
  }

  /** Posts alone leave the blob as it was. */
  lemma {:induction false} ApplyPosted(blob: Option<VersionState>, effects: seq<Effect>)
    requires forall i :: 0 <= i < |effects| ==> effects[i].Posted?
    ensures Apply(blob, effects) == blob
    decreases |effects|
  {
    if effects != [] {
      ApplyPosted(blob, effects[..|effects| - 1]);
    }
  }

  // ---------------------------------------------------------------- properties of a run

  /**
   * A production notice goes out exactly when there is no stored state or the stored
   * production id differs, and it is then the first thing the run does.
   */
  lemma ProductionNoticeIff(current: Option<VersionState>, m: Metadata, faults: Faults)
    requires Production !in faults.failingPosts
    ensures Posted(ProductionNotice(m)) in Update(current, m, faults).effects <==> ProductionChanged(current, m)
    ensures ProductionChanged(current, m) ==> Update(current, m, faults).effects[0] == Posted(ProductionNotice(m))
  {
    UpdateCases(current, m, faults);
    NoticesDistinct(m, m);
  }

  /**
   * When no post throws, a staging notice goes out exactly when there is no stored state
   * or the stored staging id differs; when both go out, production comes first.
   */
  lemma StagingNoticeIff(current: Option<VersionState>, m: Metadata, faults: Faults)
    requires Production !in faults.failingPosts && Staging !in faults.failingPosts
    ensures Posted(StagingNotice(m)) in Update(current, m, faults).effects <==> StagingChanged(current, m)
    ensures ProductionChanged(current, m) && StagingChanged(current, m) ==>
              |Update(current, m, faults).effects| >= 2 &&
              Update(current, m, faults).effects[..2] == [Posted(ProductionNotice(m)), Posted(StagingNotice(m))]
    ensures !ProductionChanged(current, m) && StagingChanged(current, m) ==>
              Update(current, m, faults).effects[0] == Posted(StagingNotice(m))
  {
    UpdateCases(current, m, faults);
    NoticesDistinct(m, m);
  }

  /**
   * Without faults the blob is written exactly when a notice went out, and the write
   * replaces the whole state with the two new ids.
   */
  lemma UploadIffNotified(current: Option<VersionState>, m: Metadata)
    ensures var r := Update(current, m, NoFaults);
      && ((exists i :: 0 <= i < |r.effects| && r.effects[i].Uploaded?) <==> Notices(current, m) != [])
      && (r.report == Updated <==> Notices(current, m) != [])
      && (r.report == NoUpdates <==> Notices(current, m) == [])
      && Apply(current, r.effects) == if Notices(current, m) == [] then current
                                      else Some(VersionState(m.productionId, m.stagingId))
  {
    var r := Update(current, m, NoFaults);
    UpdateCases(current, m, NoFaults);
    if Notices(current, m) != [] {
      assert r.effects[|r.effects| - 1].Uploaded?;
    }
  }

  /**
   * Whatever throws: an upload is the last effect, follows every planned notice, writes
   * the new state, and happens only in a run that logs "Updated".
   */
  lemma UploadComesLast(current: Option<VersionState>, m: Metadata, faults: Faults)
    ensures var r := Update(current, m, faults);
      forall i :: 0 <= i < |r.effects| && r.effects[i].Uploaded? ==>
        && i == |r.effects| - 1 == |Notices(current, m)|
        && r.effects[i] == Uploaded(NewState(m))
        && r.report == Updated
        && forall j :: 0 <= j < i ==> r.effects[j] == Posted(Notices(current, m)[j].text)
  {
    if Notices(current, m) != [] {
      DeliverShape(Notices(current, m), NewState(m), faults);
    }
  }

  /** When both stored ids equal the new ones, nothing is posted or written, whatever would throw. */
  lemma UnchangedIdsNothingHappens(s: VersionState, m: Metadata, faults: Faults)
    requires s.lastProductionId == m.productionId && s.lastStagingId == m.stagingId
    ensures Update(Some(s), m, faults) == RunEffect([], NoUpdates)
  {
  }

  /** The first run, with no blob yet and nothing throwing: both notices, then the write. */
  lemma FirstRun(m: Metadata)
    ensures Update(None, m, NoFaults) ==
            RunEffect([Posted(ProductionNotice(m)), Posted(StagingNotice(m)), Uploaded(NewState(m))], Updated)
  {
    UpdateCases(None, m, NoFaults);
  }

  /**
   * A production post that throws ends the run: the staging notice is not sent even
   * when the staging id changed, and the blob is not written.
   */
  lemma ProductionPostFailureStopsRun(current: Option<VersionState>, m: Metadata, faults: Faults)
    requires ProductionChanged(current, m) && Production in faults.failingPosts
    ensures Update(current, m, faults) == RunEffect([], Failed(PostFailed))
  {
    UpdateCases(current, m, faults);
  }

  /**
   * End to end: a first run on a token whose payload is the encoded metadata document
   * posts both notices and then writes the new ids.
   */
  lemma FirstRunOfToken(m: Metadata, payload: seq<Base64.Byte>, header: string, signature: string,
                        parse: seq<Base64.Byte> -> Option<Json.Value>)
    requires '.' !in header && parse(payload) == Some(Document(m))
    ensures Outcome(None, Some(header + "." + Jwt.StripPadding(Base64.Encode(payload)) + "." + signature), parse, NoFaults)
            == RunEffect([Posted(ProductionNotice(m)), Posted(StagingNotice(m)), Uploaded(VersionState(m.productionId, m.stagingId))], Updated)
  {
    ReadMetadataOfToken(m, payload, header, signature, parse);
    FirstRun(m);
  }

  /** A run that fails, at any step, posts only notices and leaves the blob as it was. */
  lemma FailureLeavesStoreUnchanged(current: Option<VersionState>, response: Option<string>,
                                    parse: seq<Base64.Byte> -> Option<Json.Value>, faults: Faults)
    ensures var r := Outcome(current, response, parse, faults);
      r.report.Failed? ==>
        && Apply(current, r.effects) == current
        && forall i :: 0 <= i < |r.effects| ==> r.effects[i].Posted?
  {
    var r := Outcome(current, response, parse, faults);
    var metadata := ReadMetadata(response, parse);
    if metadata.Success? && !faults.storeFails && Notices(current, metadata.value) != [] {
      DeliverShape(Notices(current, metadata.value), NewState(metadata.value), faults);
    }
    if r.report.Failed? {
      ApplyPosted(current, r.effects);
    }
  }

  /** A failed metadata read or a failed blob read ends the run before anything is posted. */
  lemma EarlyFailureDoesNothing(current: Option<VersionState>, response: Option<string>,
                                parse: seq<Base64.Byte> -> Option<Json.Value>, faults: Faults)
    requires ReadMetadata(response, parse).Failure? || faults.storeFails
    ensures Outcome(current, response, parse, faults).effects == []
    ensures Outcome(current, response, parse, faults).report.Failed?
  {
  }

  /**
   * Idempotence: after a run that uploaded, a run on the same metadata posts nothing and
   * writes nothing, whichever posts or upload would throw.
   */
  lemma SecondRunQuiet(current: Option<VersionState>, response: Option<string>,
                       parse: seq<Base64.Byte> -> Option<Json.Value>, first: Faults, second: Faults)
    requires Outcome(current, response, parse, first).report == Updated && !second.storeFails
    ensures Outcome(Apply(current, Outcome(current, response, parse, first).effects), response, parse, second)
            == RunEffect([], NoUpdates)
  {
    var m := ReadMetadata(response, parse).value;
    var r := Outcome(current, response, parse, first);
    UpdateCases(current, m, first);
    var n := |r.effects| - 1;
    assert r.effects[n] == Uploaded(NewState(m));
    UnchangedIdsNothingHappens(NewState(m), m, second);
  }

  /**
   * At least once, not exactly once: when the upload throws after the notices went out,
   * the next run on the same metadata posts the same notices again.
   */
  lemma FailedUploadRepeatsNotices(current: Option<VersionState>, m: Metadata, first: Faults)
    requires Update(current, m, first).report == Failed(UploadFailed)
    ensures var r := Update(current, m, first);
      var again := Update(Apply(current, r.effects), m, NoFaults);
      && r.effects != []
      && |again.effects| == |r.effects| + 1
      && again.effects[..|r.effects|] == r.effects
      && again.report == Updated
  {
    var pc, sc := ProductionChanged(current, m), StagingChanged(current, m);
    var both := (if pc then [Posted(ProductionNotice(m))] else []) + if sc then [Posted(StagingNotice(m))] else [];
    UpdateCases(current, m, first);
    assert Update(current, m, first).effects == both && both != [];
    ApplyPosted(current, both);
    UpdateCases(current, m, NoFaults);
    assert Update(current, m, NoFaults).effects == both + [Uploaded(NewState(m))];
    assert (both + [Uploaded(NewState(m))])[..|both|] == both;
  }

  // ---------------------------------------------------------------- the outside world

  /** The blob store and the webhook, with a log of every effect they received. */
  class World {
    /** The blob's content; None while no blob exists. */
    var blob: Option<VersionState>
    /** Every message delivered to the webhook and every upload, in order. */
    var effects: seq<Effect>
    /** The blob's content before the first logged effect. */
    ghost var origin: Option<VersionState>

    /** The blob is what its effect log leaves behind. */
    ghost predicate Valid()
      reads this
    {
      blob == Apply(origin, effects)
    }

    constructor(initial: Option<VersionState>)
      ensures Valid() && blob == initial && origin == initial && effects == []
    {
      blob := initial;
      effects := [];
      origin := initial;
    }

    /** Lines 41-51: open the container and deserialize the blob if it exists. */
    method ReadBlob(fails: bool) returns (r: Result<Option<VersionState>, Fault>)
      ensures r == if fails then Failure(StoreFailed) else Success(blob)
    {
      if fails {
        r := Failure(StoreFailed);
      } else {
        r := Success(blob);
      }
    }

    /** Lines 89-93: NotifyDiscord. PostAsync throws only when the request cannot be sent. */
    method Post(message: string, fails: bool) returns (delivered: bool)
      requires Valid()
      modifies this
      ensures Valid() && origin == old(origin) && blob == old(blob)
      ensures delivered == !fails
      ensures !fails ==> effects == old(effects) + [Posted(message)]
      ensures fails ==> effects == old(effects)
    {
      if !fails {
        effects := effects + [Posted(message)];
        assert effects[..|effects| - 1] == old(effects);
      }
      delivered := !fails;
    }

    /** Lines 74-75: serialize the state and upload it with overwrite. */
    method Upload(state: VersionState, fails: bool) returns (ok: bool)
      requires Valid()
      modifies this
      ensures Valid() && origin == old(origin)
      ensures ok == !fails
      ensures !fails ==> blob == Some(state) && effects == old(effects) + [Uploaded(state)]
      ensures fails ==> blob == old(blob) && effects == old(effects)
    {
      if !fails {
        blob := Some(state);
        effects := effects + [Uploaded(state)];
      }
      ok := !fails;
    }
  }

  /**
   * Lines 26-86: one run of the function, the catch-all included. Every exception
   * becomes the Failed report; nothing escapes the method.
   */
  method Run(world: World, response: Option<string>, parse: seq<Base64.Byte> -> Option<Json.Value>,
             faults: Faults) returns (report: Report)
    requires world.Valid()
    modifies world
    ensures world.Valid() && world.origin == old(world.origin)
    ensures report == Outcome(old(world.blob), response, parse, faults).report
    ensures world.effects == old(world.effects) + Outcome(old(world.blob), response, parse, faults).effects
    ensures world.blob == Apply(old(world.blob), Outcome(old(world.blob), response, parse, faults).effects)
  {
    ApplyConcat(world.origin, world.effects, Outcome(world.blob, response, parse, faults).effects);
    var metadata := ReadMetadata(response, parse);
    if metadata.Failure? {
      return Failed(metadata.error);
    }
    var read := world.ReadBlob(faults.storeFails);
    if read.Failure? {
      return Failed(read.error);
    }
    report := NotifyAndSave(world, read.value, metadata.value, faults);
  }

  /**
   * Lines 53-81: post a notice for each id that changed, production first, and upload
   * the new state when any was posted.
   */
  method NotifyAndSave(world: World, currentState: Option<VersionState>, m: Metadata, faults: Faults)
    returns (report: Report)
    requires world.Valid()
    modifies world
    ensures world.Valid() && world.origin == old(world.origin)
    ensures report == Update(currentState, m, faults).report
    ensures world.effects == old(world.effects) + Update(currentState, m, faults).effects
  {
    var updated := false;
    var newState := VersionState(m.productionId, m.stagingId);
    ghost var posted: seq<Effect> := [];

    if currentState.None? || currentState.value.lastProductionId != m.productionId {
      var delivered := world.Post(ProductionNotice(m), Production in faults.failingPosts);
      if !delivered {
        CaseProductionFails(currentState, m, faults);
        return Failed(PostFailed);
      }
      posted := [Posted(ProductionNotice(m))];
      updated := true;
    }
    assert world.effects == old(world.effects) + posted;

    if currentState.None? || currentState.value.lastStagingId != m.stagingId {
      var delivered := world.Post(StagingNotice(m), Staging in faults.failingPosts);
      if !delivered {
        CaseStagingFails(currentState, m, faults);
        return Failed(PostFailed);
      }
      posted := posted + [Posted(StagingNotice(m))];
      updated := true;
    }
    assert posted == PlannedPosts(currentState, m);
    assert world.effects == old(world.effects) + posted;

    if updated {
      CaseUpload(currentState, m, faults);
      var ok := world.Upload(newState, faults.uploadFails);
      if !ok {
        return Failed(UploadFailed);
      }
      assert world.effects == old(world.effects) + (posted + [Uploaded(newState)]);
      report := Updated;
    } else {
      CaseNone(currentState, m, faults);
      report := NoUpdates;
    }
  }
}
