/** The activity-log tool: it pulls a team's audit-log events page by page,
    flattens each event, renders it as an ArcSight Common Event Format (CEF) line
    and frames each line as a syslog message. HTTP, the UDP socket, the CSV file,
    JSON encoding and date parsing are not modelled: the server is a list of
    responses and the timestamp conversion is a parameter. */
module CefParser {

  import opened Wrappers
  import opened PyText
  import opened PyValue
  import opened Paging

  // ------------------------------------------------------------- cleanData

  /** `cleanData(v)`: `str(v)` with surrounding whitespace stripped, and the empty
      string when that is exactly `{}`. The escaping of backslashes and `=` it sets
      out to do has no effect, because the results of both `replace` calls are
      discarded, so the text passes through unescaped. */
  function CleanData(v: Value): (r: string)
    ensures Trimmed(r) && r != "{}"
    ensures r == "" <==> Strip(StrOf(v)) == "" || Strip(StrOf(v)) == "{}"
    ensures r != "" ==> r == Strip(StrOf(v))
  {
    var data := Strip(StrOf(v));
    if data == "{}" then "" else data
  }

  /** A string without surrounding whitespace other than `{}` comes out unchanged:
      in particular `\` and `=` are not escaped. */
  lemma CleanDataPassesThrough(s: string)
    requires Trimmed(s) && s != "{}"
    ensures CleanData(Str(s)) == s
  {
    StripTrimmed(s);
  }

  /** Cleaning a cleaned value changes nothing. */
  lemma CleanDataIdempotent(v: Value)
    ensures CleanData(Str(CleanData(v))) == CleanData(v)
  {
    var r := CleanData(v);
    if r != "" {
      CleanDataPassesThrough(r);
    }
  }

  /** A dict cleans to the empty string exactly when it is empty; otherwise to its `str()`. */
  lemma CleanDict(fields: seq<(string, Value)>)
    ensures CleanData(Dict(fields)) == "" <==> fields == []
    ensures fields != [] ==> CleanData(Dict(fields)) == StrOf(Dict(fields))
  {
    DictStr(fields);
    StripTrimmed(StrOf(Dict(fields)));
  }

  // ------------------------------------------------------------- severity

  /** The categories the command line accepts. */
  const CategoryChoices: seq<string> := [
    "apps", "comments", "devices", "domains", "file_operations", "file_requests",
    "groups", "logins", "members", "paper", "passwords", "reports", "sharing",
    "showcase", "sso", "team_folders", "team_policies", "team_profile", "tfa",
    "trusted_teams"]

  /** The CEF severity of each event category. */
  const SeverityOf: map<string, nat> := map[
    "comments" := 0, "paper" := 1, "showcase" := 1, "file_requests" := 2,
    "file_operations" := 3, "devices" := 4, "sharing" := 4, "team_profile" := 5,
    "apps" := 5, "groups" := 5, "domains" := 6, "team_folders" := 6, "logins" := 6,
    "members" := 6, "passwords" := 7, "reports" := 7, "sso" := 7,
    "trusted_teams" := 7, "team_policies" := 9, "tfa" := 9]

  /** The severity table has an entry for exactly the accepted categories, and every
      severity is within CEF's range 0..10 (here at most 9). */
  lemma SeverityCoversChoices()
    ensures forall c :: c in SeverityOf <==> c in CategoryChoices
    ensures forall c :: c in SeverityOf ==> SeverityOf[c] <= 9
  {
  }

  // ------------------------------------------------------- value access

  /** The exceptions event conversion can raise. */
  datatype CefError =
    | KeyMissing(key: string)  // KeyError on a missing key
    | NotADict                 // subscripting, `.get` or `.keys()` on a value that is not a dict
    | BadTimestamp             // `strptime` on a non-string or a string of another format
    | UnknownCategory          // the severity table has no entry for the category

  /** `v[key]` on a decoded JSON value. */
  function Index(v: Value, key: string): (r: Result<Value, CefError>)
    ensures r.Success? <==> v.Dict? && HasKey(v.fields, key)
    ensures r.Success? ==> Lookup(v.fields, key) == Some(r.value)
    ensures r.Failure? ==> r.error == if v.Dict? then KeyMissing(key) else NotADict
  {
    if !v.Dict? then Failure(NotADict)
    else
      match Lookup(v.fields, key)
      case Some(x) => Success(x)
      case None => Failure(KeyMissing(key))
  }

  /** `d.get(key, default)` on a dict. */
  function GetOr(fields: seq<(string, Value)>, key: string, default: Value): (r: Value)
    ensures HasKey(fields, key) ==> Lookup(fields, key) == Some(r)
    ensures !HasKey(fields, key) ==> r == default
  {
    match Lookup(fields, key)
    case Some(x) => x
    case None => default
  }

  /** `v.get(key, default)` on a decoded JSON value. */
  function Get(v: Value, key: string, default: Value): (r: Result<Value, CefError>)
    ensures r.Success? <==> v.Dict?
    ensures r.Success? ==> r.value == GetOr(v.fields, key, default)
  {
    if !v.Dict? then Failure(NotADict) else Success(GetOr(v.fields, key, default))
  }

  /** `event[key]` on a flattened event. */
  function At(event: map<string, Value>, key: string): (r: Result<Value, CefError>)
    ensures r.Success? <==> key in event
    ensures r.Success? ==> r.value == event[key]
    ensures r.Failure? ==> r.error == KeyMissing(key)
  {
    if key in event then Success(event[key]) else Failure(KeyMissing(key))
  }

  // ---------------------------------------------------- formatEvents: flatten

  /** `actor.get('user', actor.get('admin'))`: the user details, else the admin
      details, else `None`. */
  function ActorInfo(actor: seq<(string, Value)>): Value {
    match Lookup(actor, "user")
    case Some(user) => user
    case None =>
      match Lookup(actor, "admin")
      case Some(admin) => admin
      case None => Null
  }

  /** A value that can be subscripted with `key`. */
  predicate Subscriptable(v: Value, key: string) {
    v.Dict? && HasKey(v.fields, key)
  }

  /** One pass of the header loop of `formatEvents`: copy the field and, for the
      actor, add its kind as `actor.tag` and its details as `actor_info`. */
  function AddField(flat: map<string, Value>, key: string, value: Value): (r: Result<map<string, Value>, CefError>)
    ensures r.Success? <==> key != "actor" || Subscriptable(value, ".tag")
  {
    var flat := flat[key := value];
    if key != "actor" then Success(flat)
    else
      var tag :- Index(value, ".tag");
      Success(flat["actor.tag" := tag]["actor_info" := ActorInfo(value.fields)])
  }

  /** The flattened copy of an event's fields that `formatEvents` builds. */
  function Flatten(fields: seq<(string, Value)>): Result<map<string, Value>, CefError> {
    if fields == [] then Success(map[])
    else
      var flat :- Flatten(fields[..|fields| - 1]);
      AddField(flat, fields[|fields| - 1].0, fields[|fields| - 1].1)
  }

  /** Flattening one more field adds it to the flattened prefix. */
  lemma FlattenStep(fields: seq<(string, Value)>, j: nat)
    requires j < |fields| && Flatten(fields[..j]).Success?
    ensures Flatten(fields[..j + 1]) == AddField(Flatten(fields[..j]).value, fields[j].0, fields[j].1)
  {
    assert fields[..j + 1][..j] == fields[..j];
  }

  /** Flattening fails exactly when the event has an actor that has no `.tag`. */
  lemma {:induction false} FlattenFails(fields: seq<(string, Value)>)
    ensures Flatten(fields).Failure? <==>
              exists i :: 0 <= i < |fields| && fields[i].0 == "actor" && !Subscriptable(fields[i].1, ".tag")
  {
    if fields != [] {
      var init := fields[..|fields| - 1];
      FlattenFails(init);
      assert forall i :: 0 <= i < |init| ==> init[i] == fields[i];
    }
  }

  /** Once a prefix of the fields fails to flatten, the whole event fails the same way. */
  lemma {:induction false} FlattenFailurePersists(fields: seq<(string, Value)>, j: nat)
    requires j <= |fields| && Flatten(fields[..j]).Failure?
    ensures Flatten(fields) == Flatten(fields[..j])
    decreases |fields| - j
  {
    if j < |fields| {
      assert fields[..j + 1][..j] == fields[..j];
      FlattenFailurePersists(fields, j + 1);
    } else {
      assert fields[..j] == fields;
    }
  }

  /** The keys of a dict's fields. */
  function Keys(fields: seq<(string, Value)>): (r: set<string>)
    ensures forall k :: k in r <==> HasKey(fields, k)
  {
    set i | 0 <= i < |fields| :: fields[i].0
  }

  /** The fields `formatEvents` adds for an actor do not clash with the event's own. */
  predicate NoDerivedKeys(fields: seq<(string, Value)>) {
    !HasKey(fields, "actor.tag") && !HasKey(fields, "actor_info")
  }

  /** The flattened event has the event's keys, plus `actor.tag` and `actor_info`
      exactly when there is an actor. */
  lemma {:induction false} FlattenKeys(fields: seq<(string, Value)>)
    requires Flatten(fields).Success?
    ensures Flatten(fields).value.Keys ==
              Keys(fields) + (if HasKey(fields, "actor") then {"actor.tag", "actor_info"} else {})
  {
    if fields != [] {
      var n := |fields| - 1;
      var init := fields[..n];
      var last := fields[n];
      assert fields == init + [last];
      FlattenKeys(init);
      HasKeyAppend(init, [last], "actor");
      assert HasKey([last], "actor") <==> last.0 == "actor" by {
        if last.0 == "actor" {
          assert [last][0].0 == "actor";
        }
      }
      assert Keys(fields) == Keys(init) + {last.0} by {
        forall k | k in Keys(fields)
          ensures k in Keys(init) + {last.0}
        {
          var i :| 0 <= i < |fields| && fields[i].0 == k;
          if i < n {
            assert init[i].0 == k;
          }
        }
        forall k | k in Keys(init)
          ensures k in Keys(fields)
        {
          var i :| 0 <= i < n && init[i].0 == k;
          assert fields[i].0 == k;
        }
        assert fields[n].0 == last.0;
      }
    }
  }

  /** For an event with distinct keys and no derived keys of its own, the
      flattened event holds every original field unchanged. */
  lemma {:induction false} FlattenCopies(fields: seq<(string, Value)>)
    requires DistinctKeys(fields) && NoDerivedKeys(fields) && Flatten(fields).Success?
    ensures forall i :: 0 <= i < |fields| ==>
              fields[i].0 in Flatten(fields).value && Flatten(fields).value[fields[i].0] == fields[i].1
  {
    if fields != [] {
      var n := |fields| - 1;
      var init := fields[..n];
      assert forall i :: 0 <= i < n ==> init[i] == fields[i];
      FlattenCopies(init);
      var flat0 := Flatten(init).value;
      var flat := Flatten(fields).value;
      assert flat == AddField(flat0, fields[n].0, fields[n].1).value;
      assert fields[n].0 != "actor.tag" && fields[n].0 != "actor_info";
      forall i | 0 <= i < n
        ensures fields[i].0 in flat && flat[fields[i].0] == fields[i].1
      {
        assert fields[i].0 != fields[n].0;
        assert fields[i].0 != "actor.tag" && fields[i].0 != "actor_info";
      }
    }
  }

  /** For an event with distinct keys and no derived keys of its own, the
      flattened event's `actor.tag` is the actor's `.tag` and its `actor_info` the
      actor's user details, else its admin details, else `None`. */
  lemma {:induction false} FlattenActor(fields: seq<(string, Value)>)
    requires DistinctKeys(fields) && NoDerivedKeys(fields) && Flatten(fields).Success?
    ensures forall i :: 0 <= i < |fields| && fields[i].0 == "actor" ==>
              && Subscriptable(fields[i].1, ".tag")
              && "actor.tag" in Flatten(fields).value && "actor_info" in Flatten(fields).value
              && Lookup(fields[i].1.fields, ".tag") == Some(Flatten(fields).value["actor.tag"])
              && Flatten(fields).value["actor_info"] == ActorInfo(fields[i].1.fields)
  {
    if fields != [] {
      var n := |fields| - 1;
      var init := fields[..n];
      assert forall i :: 0 <= i < n ==> init[i] == fields[i];
      FlattenActor(init);
      var flat0 := Flatten(init).value;
      var flat := Flatten(fields).value;
      assert flat == AddField(flat0, fields[n].0, fields[n].1).value;
      assert fields[n].0 != "actor.tag" && fields[n].0 != "actor_info";
      forall i | 0 <= i < n && fields[i].0 == "actor"
        ensures && "actor.tag" in flat && "actor_info" in flat
                && Lookup(fields[i].1.fields, ".tag") == Some(flat["actor.tag"])
                && flat["actor_info"] == ActorInfo(fields[i].1.fields)
      {
        assert fields[n].0 != "actor";
      }
    }
  }

  // ------------------------------------------------------------ buildCEFEvent

  /** The fields of one CEF line. */
  datatype CefEvent = CefEvent(
    classId: string,
    name: string,
    severity: nat,
    duser: string,
    duid: string,
    category: string,
    receiptTime: string,
    end: string,
    details: string,
    actor: string,
    origin: string,
    src: string,
    assets: string)

  /** The actor kinds whose details name a team member. */
  predicate IsPerson(actorTag: Value) {
    actorTag == Str("admin") || actorTag == Str("user")
  }

  /** `strptime` followed by `strftime` on the event's timestamp; `formatTime` is
      `None` where `strptime` raises. */
  function ReceiptTime(timestamp: Value, formatTime: string -> Option<string>): (r: Result<string, CefError>)
    ensures r.Success? <==> timestamp.Str? && formatTime(timestamp.s).Some?
    ensures r.Success? ==> formatTime(timestamp.s) == Some(r.value)
  {
    if timestamp.Str? && formatTime(timestamp.s).Some? then Success(formatTime(timestamp.s).value)
    else Failure(BadTimestamp)
  }

  /** `severity[category]`. */
  function SeverityFor(category: Value): (r: Result<nat, CefError>)
    ensures r.Success? <==> category.Str? && category.s in SeverityOf
    ensures r.Success? ==> r.value == SeverityOf[category.s] && r.value <= 9
  {
    SeverityCoversChoices();
    if category.Str? && category.s in SeverityOf then Success(SeverityOf[category.s])
    else Failure(UnknownCategory)
  }

  /** The fields of an event that every conversion reads (source lines 53-58). */
  datatype Basics = Basics(name: Value, classId: Value, category: Value, time: string, details: Value, actor: Value)

  /** The event has a type with a description and a tag, a category with a tag,
      a timestamp that parses, details and an actor. */
  predicate HasBasics(event: map<string, Value>, formatTime: string -> Option<string>) {
    && "event_type" in event
    && Subscriptable(event["event_type"], "description")
    && Subscriptable(event["event_type"], ".tag")
    && "event_category" in event
    && Subscriptable(event["event_category"], ".tag")
    && "timestamp" in event && event["timestamp"].Str? && formatTime(event["timestamp"].s).Some?
    && "details" in event
    && "actor" in event
  }

  /** Reads the event type, category, timestamp, details and actor, in that order. */
  function BasicsOf(event: map<string, Value>, formatTime: string -> Option<string>): (r: Result<Basics, CefError>)
    ensures r.Success? <==> HasBasics(event, formatTime)
    ensures r.Success? ==>
              && Lookup(event["event_type"].fields, "description") == Some(r.value.name)
              && Lookup(event["event_type"].fields, ".tag") == Some(r.value.classId)
              && Lookup(event["event_category"].fields, ".tag") == Some(r.value.category)
              && formatTime(event["timestamp"].s) == Some(r.value.time)
              && r.value.details == event["details"] && r.value.actor == event["actor"]
  {
    var eventType :- At(event, "event_type");
    var name :- Index(eventType, "description");
    var classId :- Index(eventType, ".tag");
    var eventCategory :- At(event, "event_category");
    var category :- Index(eventCategory, ".tag");
    var timestamp :- At(event, "timestamp");
    var time :- ReceiptTime(timestamp, formatTime);
    var details :- At(event, "details");
    var actor :- At(event, "actor");
    Success(Basics(name, classId, category, time, details, actor))
  }

  /** The origin, if any, is a dict whose geo location, if any, is a dict. */
  predicate HasOrigin(event: map<string, Value>) {
    "origin" in event ==>
      && event["origin"].Dict?
      && (HasKey(event["origin"].fields, "geo_location") ==>
            Lookup(event["origin"].fields, "geo_location").value.Dict?)
  }

  /** The origin (default `{}`) and its IP address (default `''`). */
  function OriginOf(event: map<string, Value>): (r: Result<(Value, Value), CefError>)
    ensures r.Success? <==> HasOrigin(event)
    ensures r.Success? && "origin" !in event ==> r.value == (Dict([]), Str(""))
    ensures r.Success? && "origin" in event ==> r.value.0 == event["origin"]
    ensures r.Success? && "origin" in event ==>
              r.value.1 == GetOr(GetOr(event["origin"].fields, "geo_location", Dict([])).fields, "ip_address", Str(""))
  {
    var origin := if "origin" in event then event["origin"] else Dict([]);
    var geoLocation :- Get(origin, "geo_location", Dict([]));
    var ipAddress :- Get(geoLocation, "ip_address", Str(""));
    Success((origin, ipAddress))
  }

  /** The event has an actor kind, and a person actor has a dict of details. */
  predicate HasMember(event: map<string, Value>) {
    && "actor.tag" in event
    && (IsPerson(event["actor.tag"]) ==> "actor_info" in event && event["actor_info"].Dict?)
  }

  /** `duser` and `duid`: the email and team member id of a person actor (default
      `''`), and empty for any other kind of actor. */
  function MemberOf(event: map<string, Value>): (r: Result<(Value, Value), CefError>)
    ensures r.Success? <==> HasMember(event)
    ensures r.Success? && !IsPerson(event["actor.tag"]) ==> r.value == (Str(""), Str(""))
    ensures r.Success? && IsPerson(event["actor.tag"]) ==>
              r.value == (GetOr(event["actor_info"].fields, "email", Str("")),
                          GetOr(event["actor_info"].fields, "team_member_id", Str("")))
  {
    var actorTag :- At(event, "actor.tag");
    if IsPerson(actorTag) then
      var actorInfo :- At(event, "actor_info");
      if !actorInfo.Dict? then Failure(NotADict)
      else Success((GetOr(actorInfo.fields, "email", Str("")), GetOr(actorInfo.fields, "team_member_id", Str(""))))
    else Success((Str(""), Str("")))
  }

  /** The flattened events that `buildCEFEvent` converts without raising. */
  predicate Convertible(event: map<string, Value>, formatTime: string -> Option<string>) {
    && HasBasics(event, formatTime)
    && HasOrigin(event)
    && HasMember(event)
    && var category := Lookup(event["event_category"].fields, ".tag").value;
       category.Str? && category.s in SeverityOf
  }

  /** `buildCEFEvent`: reads the fields of a flattened event in the order the
      source does, stopping at the first exception. */
  function BuildCefEvent(event: map<string, Value>, formatTime: string -> Option<string>): (r: Result<CefEvent, CefError>)
    ensures r.Success? <==> Convertible(event, formatTime)
    ensures r.Success? ==>
              && r.value.receiptTime == r.value.end
              && formatTime(event["timestamp"].s) == Some(r.value.receiptTime)
              && r.value.category in SeverityOf
              && r.value.severity == SeverityOf[r.value.category] && r.value.severity <= 9
    ensures r.Success? && !IsPerson(event["actor.tag"]) ==> r.value.duser == "" && r.value.duid == ""
    ensures r.Success? && IsPerson(event["actor.tag"]) ==>
              && r.value.duser == StrOf(GetOr(event["actor_info"].fields, "email", Str("")))
              && r.value.duid == StrOf(GetOr(event["actor_info"].fields, "team_member_id", Str("")))
  {
    var basics :- BasicsOf(event, formatTime);
    var assets := if "assets" in event then event["assets"] else Dict([]);
    var origin :- OriginOf(event);
    var member :- MemberOf(event);
    var severity :- SeverityFor(basics.category);
    CleanDict([]);
    Success(CefEvent(StrOf(basics.classId), StrOf(basics.name), severity, StrOf(member.0), StrOf(member.1),
                     StrOf(basics.category), basics.time, basics.time, CleanData(basics.details),
                     CleanData(basics.actor), CleanData(origin.0), StrOf(origin.1), CleanData(assets)))
  }

  /** The text fields of a converted event: each is the `str()` or `cleanData` of
      the field it is read from; an absent assets or origin gives empty fields, and
      `src` is the origin's geo location's IP address (default `''`). */
  lemma BuildCefEventFields(event: map<string, Value>, formatTime: string -> Option<string>)
    requires BuildCefEvent(event, formatTime).Success?
    ensures var e := BuildCefEvent(event, formatTime).value;
      && e.classId == StrOf(Lookup(event["event_type"].fields, ".tag").value)
      && e.name == StrOf(Lookup(event["event_type"].fields, "description").value)
      && e.category == StrOf(Lookup(event["event_category"].fields, ".tag").value)
      && e.details == CleanData(event["details"])
      && e.actor == CleanData(event["actor"])
      && e.assets == (if "assets" in event then CleanData(event["assets"]) else "")
      && ("origin" !in event ==> e.origin == "" && e.src == "")
      && ("origin" in event ==>
            && e.origin == CleanData(event["origin"])
            && e.src == StrOf(GetOr(GetOr(event["origin"].fields, "geo_location", Dict([])).fields,
                                    "ip_address", Str(""))))
  {
    CleanDict([]);
  }

  // ---------------------------------------------------------------- CEF line

  const CefVersion: string := "0"
  const DeviceVendor: string := "Dropbox"
  const DeviceProduct: string := "Dropbox Activity Log"
  const DeviceVersion: string := "1"

  /** The CEF extension: key=value pairs separated by spaces, in the template's order. */
  function Extension(e: CefEvent): string {
    "duser=" + e.duser + " duid=" + e.duid + " cat=" + e.category
      + " rt=" + e.receiptTime + " end=" + e.end
      + " cs1=" + e.details + ", cs1Label=Details of event"
      + " cs2=" + e.actor + " cs2Label=Details of event actor"
      + " cs3=" + e.origin + " cs3Label=Details of the event origin"
      + " src=" + e.src
      + " cs4=" + e.assets + " cs4Label=Details of event assets"
  }

  /** Fields joined by `|`, followed by a tail. */
  function JoinFields(fields: seq<string>, tail: string): string {
    if fields == [] then tail else fields[0] + "|" + JoinFields(fields[1..], tail)
  }

  /** Splits off the first `n` `|`-separated fields of a line. */
  function SplitFields(s: string, n: nat): (r: Option<(seq<string>, string)>)
    decreases n
    ensures r.Some? ==> |r.value.0| == n && forall i :: 0 <= i < n ==> '|' !in r.value.0[i]
  {
    if n == 0 then Some(([], s))
    else
      match SplitAt(s, '|')
      case None => None
      case Some((field, rest)) =>
        match SplitFields(rest, n - 1)
        case None => None
        case Some((fields, tail)) => Some(([field] + fields, tail))
  }

  /** Splitting joined fields that have no `|` of their own gives them back. */
  lemma {:induction false} SplitJoinedFields(fields: seq<string>, tail: string)
    requires forall i :: 0 <= i < |fields| ==> '|' !in fields[i]
    ensures SplitFields(JoinFields(fields, tail), |fields|) == Some((fields, tail))
  {
    if fields != [] {
      SplitAtJoined(fields[0], '|', JoinFields(fields[1..], tail));
      SplitJoinedFields(fields[1..], tail);
      assert [fields[0]] + fields[1..] == fields;
    }
  }

  /** The seven header fields of an event's CEF line. */
  function Header(e: CefEvent): seq<string> {
    ["CEF:" + CefVersion, DeviceVendor, DeviceProduct, DeviceVersion, e.classId, e.name, NatToDecimal(e.severity)]
  }

  /** The CEF line of an event: the template
      `CEF:{version}|{vendor}|{product}|{device version}|{class id}|{name}|{severity}|{extension}`
      filled in, i.e. the header fields and the extension joined by `|`. */
  function Render(e: CefEvent): string {
    JoinFields(Header(e), Extension(e))
  }

  /** Seven fields joined by `|`, followed by a tail. */
  lemma JoinSevenFields(fields: seq<string>, tail: string)
    requires |fields| == 7
    ensures JoinFields(fields, tail)
            == fields[0] + "|" + fields[1] + "|" + fields[2] + "|" + fields[3] + "|"
               + fields[4] + "|" + fields[5] + "|" + fields[6] + "|" + tail
  {
    var f := fields;
    assert f[6..][1..] == [];
    var j6 := f[6] + "|" + tail;
    assert JoinFields(f[6..], tail) == j6;
    assert f[5..][1..] == f[6..];
    var j5 := f[5] + "|" + j6;
    assert JoinFields(f[5..], tail) == j5;
    assert f[4..][1..] == f[5..];
    var j4 := f[4] + "|" + j5;
    assert JoinFields(f[4..], tail) == j4;
    assert f[3..][1..] == f[4..];
    var j3 := f[3] + "|" + j4;
    assert JoinFields(f[3..], tail) == j3;
    assert f[2..][1..] == f[3..];
    var j2 := f[2] + "|" + j3;
    assert JoinFields(f[2..], tail) == j2;
    assert f[1..][1..] == f[2..];
    var j1 := f[1] + "|" + j2;
    assert JoinFields(f[1..], tail) == j1;
    assert JoinFields(f, tail) == f[0] + "|" + j1;
  }

  /** The CEF line is the template filled in: `CEF:` and the version, the vendor,
      the product, the device version, the class id, the name and the severity,
      then the extension, separated by `|`. */
  lemma RenderSpelledOut(e: CefEvent)
    ensures Render(e) == "CEF:" + CefVersion + "|" + DeviceVendor + "|" + DeviceProduct + "|" + DeviceVersion
                         + "|" + e.classId + "|" + e.name + "|" + NatToDecimal(e.severity) + "|" + Extension(e)
  {
    JoinSevenFields(Header(e), Extension(e));
  }

  /** When the class id and the name contain no `|`, the CEF line splits back into
      its header fields and its extension; the first four are the fixed
      `CEF:0`, `Dropbox`, `Dropbox Activity Log` and `1`. */
  lemma RenderHeader(e: CefEvent)
    requires '|' !in e.classId && '|' !in e.name
    ensures SplitFields(Render(e), 7) == Some((Header(e), Extension(e)))
    ensures Header(e)[..4] == ["CEF:0", "Dropbox", "Dropbox Activity Log", "1"]
  {
    HeaderConstants();
    assert '|' !in NatToDecimal(e.severity);
    SplitJoinedFields(Header(e), Extension(e));
  }

  /** The fixed header fields are the CEF version 0 and the Dropbox device, none
      of them holding a `|`. */
  lemma HeaderConstants()
    ensures "CEF:" + CefVersion == "CEF:0" && '|' !in "CEF:" + CefVersion
    ensures DeviceVendor == "Dropbox" && '|' !in DeviceVendor
    ensures DeviceProduct == "Dropbox Activity Log" && '|' !in DeviceProduct
    ensures DeviceVersion == "1" && '|' !in DeviceVersion
  {
  }

  // ------------------------------------------------------------- formatEvents

  /** The CEF line of one raw event, or the exception converting it raises. */
  function CefOf(event: Value, formatTime: string -> Option<string>): Result<string, CefError> {
    if !event.Dict? then Failure(NotADict)
    else
      var flat :- Flatten(event.fields);
      var cef :- BuildCefEvent(flat, formatTime);
      Success(Render(cef))
  }

  /** An event converts exactly when it is a dict that flattens (see
      `FlattenFails`) into a convertible event, and its line then splits back into
      the header and extension of that event. */
  lemma CefOfSucceeds(event: Value, formatTime: string -> Option<string>)
    ensures CefOf(event, formatTime).Success? <==>
              && event.Dict?
              && Flatten(event.fields).Success?
              && Convertible(Flatten(event.fields).value, formatTime)
    ensures CefOf(event, formatTime).Success? ==>
              var e := BuildCefEvent(Flatten(event.fields).value, formatTime).value;
              '|' !in e.classId && '|' !in e.name ==>
                SplitFields(CefOf(event, formatTime).value, 7) == Some((Header(e), Extension(e)))
  {
    if CefOf(event, formatTime).Success? {
      var e := BuildCefEvent(Flatten(event.fields).value, formatTime).value;
      if '|' !in e.classId && '|' !in e.name {
        RenderHeader(e);
      }
    }
  }

  /** The body of the event loop of `formatEvents`: copies the event header by
      header into a fresh dict, adding the actor's kind and details after the
      actor, and converts the result. */
  method FormatEvent(event: Value, formatTime: string -> Option<string>) returns (r: Result<string, CefError>)
    ensures r == CefOf(event, formatTime)
  {
    if !event.Dict? {
      return Failure(NotADict);
    }
    var formatEvent: map<string, Value> := map[];
    for j := 0 to |event.fields|
      invariant Flatten(event.fields[..j]) == Success(formatEvent)
    {
      var (header, value) := event.fields[j];
      FlattenStep(event.fields, j);
      formatEvent := formatEvent[header := value];
      if header == "actor" {
        var tag := Index(value, ".tag");
        if tag.Failure? {
          FlattenFailurePersists(event.fields, j + 1);
          return Failure(tag.error);
        }
        formatEvent := formatEvent["actor.tag" := tag.value]["actor_info" := ActorInfo(value.fields)];
      }
    }
    assert event.fields[..|event.fields|] == event.fields;
    var cef := BuildCefEvent(formatEvent, formatTime);
    if cef.Failure? {
      return Failure(cef.error);
    }
    r := Success(Render(cef.value));
  }

  /** The conversion of each event, in input order. */
  function Conversions(events: seq<Value>, formatTime: string -> Option<string>): (r: seq<Result<string, CefError>>)
    ensures |r| == |events| && forall i :: 0 <= i < |events| ==> r[i] == CefOf(events[i], formatTime)
  {
    seq(|events|, i requires 0 <= i < |events| => CefOf(events[i], formatTime))
  }

  /** Collects the lines of a list of conversions as one single-line list each, or
      stops at the first failed conversion. */
  function Collect(results: seq<Result<string, CefError>>): Result<seq<seq<string>>, CefError> {
    if results == [] then Success([])
    else
      var done :- Collect(results[..|results| - 1]);
      var line :- results[|results| - 1];
      Success(done + [[line]])
  }

  /** Conversion `i` is the first one that failed. */
  predicate FirstFailure(results: seq<Result<string, CefError>>, i: int) {
    && 0 <= i < |results|
    && results[i].Failure?
    && forall j :: 0 <= j < i ==> results[j].Success?
  }

  /** Collecting one more conversion appends its line, or fails with its error. */
  lemma CollectStep(results: seq<Result<string, CefError>>, n: nat)
    requires n < |results| && Collect(results[..n]).Success?
    ensures results[n].Failure? ==> Collect(results[..n + 1]) == Failure(results[n].error)
    ensures results[n].Success? ==>
              Collect(results[..n + 1]) == Success(Collect(results[..n]).value + [[results[n].value]])
  {
    assert results[..n + 1][..n] == results[..n];
  }

  /** Once the conversions up to `n` fail, all of them fail the same way. */
  lemma {:induction false} CollectFailurePersists(results: seq<Result<string, CefError>>, n: nat)
    requires n <= |results| && Collect(results[..n]).Failure?
    ensures Collect(results) == Collect(results[..n])
    decreases |results| - n
  {
    if n < |results| {
      assert results[..n + 1][..n] == results[..n];
      CollectFailurePersists(results, n + 1);
    } else {
      assert results[..n] == results;
    }
  }

  /** Collecting succeeds exactly when every conversion succeeded. */
  lemma {:induction false} CollectSucceeds(results: seq<Result<string, CefError>>)
    ensures Collect(results).Success? <==> forall i :: 0 <= i < |results| ==> results[i].Success?
  {
    if results != [] {
      var init := results[..|results| - 1];
      CollectSucceeds(init);
      assert forall i :: 0 <= i < |init| ==> init[i] == results[i];
    }
  }

  /** A successful collection holds one single-line list per conversion, in order. */
  lemma {:induction false} CollectLines(results: seq<Result<string, CefError>>)
    requires Collect(results).Success?
    ensures |Collect(results).value| == |results|
    ensures forall i :: 0 <= i < |results| ==>
              results[i].Success? && Collect(results).value[i] == [results[i].value]
  {
    if results != [] {
      var n := |results| - 1;
      var init := results[..n];
      CollectLines(init);
      var r0 := Collect(init).value;
      var r := Collect(results).value;
      assert r == r0 + [[results[n].value]];
      forall i | 0 <= i < |results|
        ensures results[i].Success? && r[i] == [results[i].value]
      {
        if i < n {
          assert results[i] == init[i] && r[i] == r0[i];
        }
      }
    }
  }

  /** A failed collection carries the error of the first failed conversion. */
  lemma {:induction false} CollectFirstFailure(results: seq<Result<string, CefError>>)
    requires Collect(results).Failure?
    ensures exists i :: FirstFailure(results, i) && Collect(results).error == results[i].error
  {
    var n := |results| - 1;
    var init := results[..n];
    assert forall i :: 0 <= i < n ==> init[i] == results[i];
    if Collect(init).Failure? {
      CollectFirstFailure(init);
      var i :| FirstFailure(init, i) && Collect(init).error == init[i].error;
      assert FirstFailure(results, i);
    } else {
      CollectSucceeds(init);
      assert FirstFailure(results, n);
    }
  }

  /** `formatEvents`: converts the events one by one in input order, collecting
      a single-line list per event; the first event that cannot be converted ends
      it with its exception. */
  method FormatEvents(events: seq<Value>, formatTime: string -> Option<string>)
    returns (r: Result<seq<seq<string>>, CefError>)
    ensures r == Collect(Conversions(events, formatTime))
  {
    ghost var results := Conversions(events, formatTime);
    var cefEvents: seq<seq<string>> := [];
    for n := 0 to |events|
      invariant Collect(results[..n]) == Success(cefEvents)
    {
      var cef := FormatEvent(events[n], formatTime);
      CollectStep(results, n);
      if cef.Failure? {
        CollectFailurePersists(results, n + 1);
        return Failure(cef.error);
      }
      cefEvents := cefEvents + [[cef.value]];
    }
    assert results[..|events|] == results;
    r := Success(cefEvents);
  }

  // ------------------------------------------------------------ sendEvents

  /** Syslog facility 3 (daemon) and severity 6 (informational). */
  const Facility: nat := 3
  const Level: nat := 6

  /** A syslog message: the priority value `facility * 8 + severity` between angle
      brackets, followed by the text. */
  function SyslogFrame(text: string): string {
    "<" + NatToDecimal(Level + Facility * 8) + ">" + text
  }

  /** Reads a syslog message back into facility, severity and text. */
  function ParseFrame(frame: string): Option<(nat, nat, string)> {
    if |frame| == 0 || frame[0] != '<' then None
    else
      match SplitAt(frame[1..], '>')
      case None => None
      case Some((digits, text)) =>
        if forall i :: 0 <= i < |digits| ==> IsDigit(digits[i]) then
          var pri := DecimalToNat(digits);
          Some((pri / 8, pri % 8, text))
        else None
  }

  /** Every message carries priority 30, and reading it back gives the daemon
      facility, the informational severity and the text. */
  lemma SyslogFrameRoundTrip(text: string)
    ensures SyslogFrame(text) == "<30>" + text
    ensures ParseFrame(SyslogFrame(text)) == Some((Facility, Level, text))
  {
    var digits := NatToDecimal(30);
    assert digits == "30";
    var frame := SyslogFrame(text);
    assert frame[1..] == digits + ">" + text;
    assert '>' !in digits;
    SplitAtJoined(digits, '>', text);
    DecimalRoundTrip(30);
  }

  /** `sendEvents`: one datagram per event, in order, carrying the event's line. */
  method SendEvents(events: seq<seq<string>>) returns (datagrams: seq<string>)
    requires forall i :: 0 <= i < |events| ==> |events[i]| > 0
    ensures |datagrams| == |events|
    ensures forall i :: 0 <= i < |events| ==> datagrams[i] == SyslogFrame(events[i][0])
  {
    datagrams := [];
    for n := 0 to |events|
      invariant |datagrams| == n
      invariant forall i :: 0 <= i < n ==> datagrams[i] == SyslogFrame(events[i][0])
    {
      datagrams := datagrams + ["<" + NatToDecimal(Level + Facility * 8) + ">" + events[n][0]];
    }
  }

  // -------------------------------------------------------------- getEvents

  const GetEventsEndpoint: string := "https://api.dropbox.com/2/team_log/get_events"
  const ContinueEndpoint: string := "https://api.dropbox.com/2/team_log/get_events/continue"

  /** The command-line options that shape the first request. */
  datatype PullOptions = PullOptions(limit: int, startTime: Option<string>, endTime: Option<string>)

  /** One POST: its endpoint and its JSON body. */
  datatype Request = Request(endpoint: string, body: Value)

  /** The `time` object of a first request, when a start or an end time was given. */
  function TimeRange(opts: PullOptions): (r: Option<Value>)
    ensures r.Some? <==> Truthy(opts.startTime) || Truthy(opts.endTime)
    ensures r.Some? ==>
              && r.value.Dict?
              && (Lookup(r.value.fields, "start_time") ==
                    if Truthy(opts.startTime) then Some(Str(opts.startTime.value)) else None)
              && (Lookup(r.value.fields, "end_time") ==
                    if Truthy(opts.endTime) then Some(Str(opts.endTime.value)) else None)
    ensures r.Some? ==>
              Keys(r.value.fields) == (if Truthy(opts.startTime) then {"start_time"} else {})
                                      + (if Truthy(opts.endTime) then {"end_time"} else {})
  {
    if Truthy(opts.endTime) && Truthy(opts.startTime) then
      Some(Dict([("start_time", Str(opts.startTime.value)), ("end_time", Str(opts.endTime.value))]))
    else if Truthy(opts.endTime) then Some(Dict([("end_time", Str(opts.endTime.value))]))
    else if Truthy(opts.startTime) then Some(Dict([("start_time", Str(opts.startTime.value))]))
    else None
  }

  /** The fields of a first request body, one part per optional key. */
  function LimitPart(opts: PullOptions): seq<(string, Value)> {
    [("limit", Int(opts.limit))]
  }

  function CategoryPart(category: string): seq<(string, Value)> {
    if category != "" then [("category", Str(category))] else []
  }

  function TimePart(opts: PullOptions): seq<(string, Value)> {
    match TimeRange(opts) case Some(t) => [("time", t)] case None => []
  }

  /** The body of a first request: the limit, the category when one is given, and
      the time range when a start or an end time was given, in that order. */
  function InitialBody(category: string, opts: PullOptions): seq<(string, Value)> {
    LimitPart(opts) + CategoryPart(category) + TimePart(opts)
  }

  /** The key set of a one-field dict. */
  lemma KeysSingle(key: string, v: Value)
    ensures Keys([(key, v)]) == {key}
  {
    assert HasKey([(key, v)], key) by {
      assert [(key, v)][0].0 == key;
    }
  }

  /** The keys of `a + b` are those of `a` and those of `b`. */
  lemma KeysAppend(a: seq<(string, Value)>, b: seq<(string, Value)>)
    ensures Keys(a + b) == Keys(a) + Keys(b)
  {
    forall k
      ensures HasKey(a + b, k) <==> HasKey(a, k) || HasKey(b, k)
    {
      HasKeyAppend(a, b, k);
    }
  }

  /** A first body holds exactly the limit, the category when one is given, and the
      time object when a start or an end was given, each key once. */
  lemma InitialBodyKeys(category: string, opts: PullOptions)
    ensures DistinctKeys(InitialBody(category, opts))
    ensures Keys(InitialBody(category, opts))
            == {"limit"} + (if category != "" then {"category"} else {})
               + (if Truthy(opts.startTime) || Truthy(opts.endTime) then {"time"} else {})
  {
    var limit, categoryField, time := LimitPart(opts), CategoryPart(category), TimePart(opts);
    KeysSingle("limit", Int(opts.limit));
    assert Keys(categoryField) == if category != "" then {"category"} else {} by {
      if category != "" {
        KeysSingle("category", Str(category));
      }
    }
    assert Keys(time) == if Truthy(opts.startTime) || Truthy(opts.endTime) then {"time"} else {} by {
      if TimeRange(opts).Some? {
        KeysSingle("time", TimeRange(opts).value);
      }
    }
    KeysAppend(limit, categoryField);
    KeysAppend(limit + categoryField, time);
    DistinctKeysAppend(limit, categoryField);
    DistinctKeysAppend(limit + categoryField, time);
  }

  /** The limit of a first body is the configured one, its category the one given,
      and its time object the time range. */
  lemma InitialBodyLookups(category: string, opts: PullOptions)
    ensures var fields := InitialBody(category, opts);
      && Lookup(fields, "limit") == Some(Int(opts.limit))
      && (category != "" ==> Lookup(fields, "category") == Some(Str(category)))
      && (TimeRange(opts).Some? ==> Lookup(fields, "time") == TimeRange(opts))
  {
    var limit, categoryField, time := LimitPart(opts), CategoryPart(category), TimePart(opts);
    assert HasKey(limit, "limit") by {
      assert limit[0].0 == "limit";
    }
    HasKeyAppend(limit, categoryField, "limit");
    LookupAppend(limit, categoryField, "limit");
    LookupAppend(limit + categoryField, time, "limit");
    if category != "" {
      assert HasKey(categoryField, "category") by {
        assert categoryField[0].0 == "category";
      }
      HasKeyAppend(limit, categoryField, "category");
      LookupAppend(limit, categoryField, "category");
      LookupAppend(limit + categoryField, time, "category");
    }
    if TimeRange(opts).Some? {
      HasKeyAppend(limit, categoryField, "time");
      LookupAppend(limit + categoryField, time, "time");
    }
  }

  /** The request `getEvents` sends: a continue call carries only the cursor; a
      first call carries the limit, the category when one is given, and the time
      range when a start or an end was given. */
  function RequestFor(category: string, cursor: Option<string>, opts: PullOptions): Request {
    if cursor.Some? then Request(ContinueEndpoint, Dict([("cursor", Str(cursor.value))]))
    else Request(GetEventsEndpoint, Dict(InitialBody(category, opts)))
  }

  /** A continue request goes to the continue endpoint and carries only the cursor;
      a first request goes to `get_events` and carries the limit, the category when
      one is given, and the time range when a start or an end was given. Either
      body has distinct keys. */
  lemma RequestForBody(category: string, cursor: Option<string>, opts: PullOptions)
    ensures var r := RequestFor(category, cursor, opts);
      && r.body.Dict? && DistinctKeys(r.body.fields)
      && (cursor.Some? ==>
            r.endpoint == ContinueEndpoint && r.body.fields == [("cursor", Str(cursor.value))])
      && (cursor.None? ==>
            && r.endpoint == GetEventsEndpoint
            && Keys(r.body.fields) == {"limit"} + (if category != "" then {"category"} else {})
                                      + (if Truthy(opts.startTime) || Truthy(opts.endTime) then {"time"} else {})
            && Lookup(r.body.fields, "limit") == Some(Int(opts.limit))
            && (HasKey(r.body.fields, "category") <==> category != "")
            && (category != "" ==> Lookup(r.body.fields, "category") == Some(Str(category)))
            && (HasKey(r.body.fields, "time") <==> Truthy(opts.startTime) || Truthy(opts.endTime))
            && (HasKey(r.body.fields, "time") ==>
                  var time := Lookup(r.body.fields, "time").value;
                  && time.Dict?
                  && (Lookup(time.fields, "start_time") ==
                        if Truthy(opts.startTime) then Some(Str(opts.startTime.value)) else None)
                  && (Lookup(time.fields, "end_time") ==
                        if Truthy(opts.endTime) then Some(Str(opts.endTime.value)) else None)
                  && Keys(time.fields) == (if Truthy(opts.startTime) then {"start_time"} else {})
                                          + (if Truthy(opts.endTime) then {"end_time"} else {})))
  {
    if cursor.None? {
      InitialBodyKeys(category, opts);
      InitialBodyLookups(category, opts);
    } else {
      KeysSingle("cursor", Str(cursor.value));
    }
  }

  /** What the server answers to one request: an HTTP error status, or a page of events. */
  datatype Response = HttpError(status: nat) | HttpOk(page: Page<Value>)

  /** `responses` answers a whole pull: every response but the last is a page
      saying more follow, and a last page says none do. */
  predicate Exchange(responses: seq<Response>) {
    && |responses| > 0
    && (forall k :: 0 <= k < |responses| - 1 ==> responses[k].HttpOk? && responses[k].page.hasMore)
    && (responses[|responses| - 1].HttpOk? ==> !responses[|responses| - 1].page.hasMore)
  }

  /** The pages of an exchange without errors. */
  function OkPages(responses: seq<Response>): (r: seq<Page<Value>>)
    requires forall k :: 0 <= k < |responses| ==> responses[k].HttpOk?
    ensures |r| == |responses| && forall k :: 0 <= k < |r| ==> r[k] == responses[k].page
  {
    seq(|responses|, k requires 0 <= k < |responses| && responses[k].HttpOk? => responses[k].page)
  }

  datatype PullError = HttpFailure(status: nat)

  /** The events and the cursor a pull returns. */
  datatype Pulled = Pulled(events: seq<Value>, cursor: string)

  /** A pull: the requests sent, and what came of them. */
  datatype Pull = Pull(requests: seq<Request>, outcome: Result<Pulled, PullError>)

  /** `getEvents`: sends a request, and while the page says more follow, pulls the
      rest with its cursor and prepends this page's events. The cursor returned is
      the one of the FIRST page. An HTTP error ends the pull with a failure. */
  function GetEvents(category: string, cursor: Option<string>, opts: PullOptions, responses: seq<Response>): (r: Pull)
    requires Exchange(responses)
    ensures |r.requests| == |responses|
    ensures r.outcome.Success? <==> forall k :: 0 <= k < |responses| ==> responses[k].HttpOk?
    ensures r.outcome.Failure? ==> r.outcome.error == HttpFailure(responses[|responses| - 1].status)
    decreases |responses|
  {
    var request := RequestFor(category, cursor, opts);
    match responses[0]
    case HttpError(status) => Pull([request], Failure(HttpFailure(status)))
    case HttpOk(page) =>
      if !page.hasMore then
        Pull([request], Success(Pulled(page.items, page.cursor)))
      else
        var rest := GetEvents(category, Some(page.cursor), opts, responses[1..]);
        var outcome := match rest.outcome
          case Failure(e) => Failure(e)
          case Success(pulled) => Success(Pulled(page.items + pulled.events, page.cursor));
        assert forall k :: 1 <= k < |responses| ==> responses[k] == responses[1..][k - 1];
        Pull([request] + rest.requests, outcome)
  }

  /** A page saying more follow makes `getEvents` send its request and then pull the
      rest with that page's cursor. */
  lemma GetEventsContinues(category: string, cursor: Option<string>, opts: PullOptions,
                           responses: seq<Response>)
    requires Exchange(responses) && responses[0].HttpOk? && responses[0].page.hasMore
    ensures Exchange(responses[1..])
    ensures GetEvents(category, cursor, opts, responses).requests
            == [RequestFor(category, cursor, opts)]
               + GetEvents(category, Some(responses[0].page.cursor), opts, responses[1..]).requests
  {
    assert forall k :: 1 <= k < |responses| ==> responses[k] == responses[1..][k - 1];
  }

  /** The first request `getEvents` sends is the one asked for. */
  lemma GetEventsFirstRequest(category: string, cursor: Option<string>, opts: PullOptions,
                              responses: seq<Response>)
    requires Exchange(responses)
    ensures GetEvents(category, cursor, opts, responses).requests[0] == RequestFor(category, cursor, opts)
  {
  }

  /** Request `k` of a pull continues from the cursor of page `k - 1`. */
  lemma {:induction false} GetEventsRequestAt(category: string, cursor: Option<string>, opts: PullOptions,
                                              responses: seq<Response>, k: nat)
    requires Exchange(responses) && 1 <= k < |responses|
    ensures GetEvents(category, cursor, opts, responses).requests[k]
            == RequestFor(category, Some(responses[k - 1].page.cursor), opts)
    decreases k
  {
    var tail := responses[1..];
    var next := Some(responses[0].page.cursor);
    GetEventsContinues(category, cursor, opts, responses);
    if k == 1 {
      GetEventsFirstRequest(category, next, opts, tail);
    } else {
      GetEventsRequestAt(category, next, opts, tail, k - 1);
      assert responses[k - 1] == tail[k - 2];
    }
  }

  /** The first request is the one asked for, and every later request continues
      from the cursor of the page before it. */
  lemma GetEventsRequests(category: string, cursor: Option<string>, opts: PullOptions,
                          responses: seq<Response>)
    requires Exchange(responses)
    ensures GetEvents(category, cursor, opts, responses).requests[0] == RequestFor(category, cursor, opts)
    ensures forall k :: 1 <= k < |responses| ==>
              GetEvents(category, cursor, opts, responses).requests[k]
              == RequestFor(category, Some(responses[k - 1].page.cursor), opts)
  {
    GetEventsFirstRequest(category, cursor, opts, responses);
    forall k | 1 <= k < |responses|
      ensures GetEvents(category, cursor, opts, responses).requests[k]
              == RequestFor(category, Some(responses[k - 1].page.cursor), opts)
    {
      GetEventsRequestAt(category, cursor, opts, responses, k);
    }
  }

  /** A successful pull returns the events of all pages, in page order, and the
      cursor of the first page. */
  lemma {:induction false} GetEventsPulls(category: string, cursor: Option<string>, opts: PullOptions,
                                          responses: seq<Response>)
    requires Exchange(responses)
    ensures GetEvents(category, cursor, opts, responses).outcome.Success? ==>
              GetEvents(category, cursor, opts, responses).outcome.value
              == Pulled(Items(OkPages(responses)), responses[0].page.cursor)
    decreases |responses|
  {
    var r := GetEvents(category, cursor, opts, responses);
    if r.outcome.Success? {
      var page := responses[0].page;
      if !page.hasMore {
        assert OkPages(responses) == [page];
        assert Items([page]) == Items([]) + page.items;
      } else {
        var tail := responses[1..];
        var rest := GetEvents(category, Some(page.cursor), opts, tail);
        assert r.outcome.value == Pulled(page.items + rest.outcome.value.events, page.cursor);
        GetEventsPulls(category, Some(page.cursor), opts, tail);
        OkPagesCons(responses);
        ItemsCons(page, OkPages(tail));
      }
    }
  }

  /** The pages of an exchange are its first page followed by the pages of the rest. */
  lemma OkPagesCons(responses: seq<Response>)
    requires |responses| > 0 && forall k :: 0 <= k < |responses| ==> responses[k].HttpOk?
    ensures OkPages(responses) == [responses[0].page] + OkPages(responses[1..])
  {
    assert forall k :: 0 <= k < |responses| - 1 ==> responses[1..][k] == responses[k + 1];
  }
}
