/** Heartbeat parsing: a JSON object becomes one demand per target and one refusal per unknown kind. */
module HeartbeatParsing {
  import opened Wrappers
  import opened Text
  import opened SubscriptionLeases

  const INT64_MIN := -0x8000_0000_0000_0000
  const INT64_MAX := 0x7fff_ffff_ffff_ffff
  const UINT64_MAX := 0xffff_ffff_ffff_ffff
  const INT_MIN := -0x8000_0000
  const INT_MAX := 0x7fff_ffff

  type int64 = n: int | INT64_MIN <= n <= INT64_MAX
  type uint64 = n: int | 0 <= n <= UINT64_MAX

  datatype Json =
    | Null
    | Boolean(bool)
    | Signed(int64)
    | Unsigned(uint64)
    | Float(real)
    | Str(text: string)
    | Array(items: seq<Json>)
    | Object(fields: map<string, Json>)

  datatype Result<T> = Good(value: T) | Bad(field: string)

  function Field(fields: map<string, Json>, name: string): Option<Json> {
    if name in fields then Some(fields[name]) else None
  }

  // ---------------------------------------------------------------------------------------------
  // One entry
  // ---------------------------------------------------------------------------------------------

  const INTERVAL_FIELD := "subscriptions.delivery_preferences.interval_ms"

  function ParseClampedInt(value: Json): Result<int> {
    match value
    case Unsigned(raw) => Good(if raw > INT_MAX then INT_MAX else raw)
    case Signed(raw) => Good(if raw < INT_MIN then INT_MIN else if raw > INT_MAX then INT_MAX else raw)
    case _ => Bad(INTERVAL_FIELD)
  }

  function Distance(a: int, b: int): nat {
    if a < b then b - a else a - b
  }

  /** An integer becomes the nearest int, however it is represented. */
  lemma ClampedIsNearest(raw: int, n: int)
    requires INT64_MIN <= raw <= UINT64_MAX && INT_MIN <= n <= INT_MAX
    ensures var clamped := ParseClampedInt(if raw < 0 then Signed(raw) else Unsigned(raw));
            clamped.Good? && INT_MIN <= clamped.value <= INT_MAX && Distance(clamped.value, raw) <= Distance(n, raw)
    ensures 0 <= raw <= INT64_MAX ==> ParseClampedInt(Signed(raw)) == ParseClampedInt(Unsigned(raw))
  {
  }

  /** No preference and 0 are the same. */
  function ParseIntervalMs(entry: map<string, Json>): Result<Option<int>> {
    match Field(entry, "delivery_preferences")
    case None => Good(None)
    case Some(Object(preferences)) =>
      (match Field(preferences, "interval_ms")
       case None => Good(None)
       case Some(value) =>
         match ParseClampedInt(value)
         case Bad(field) => Bad(field)
         case Good(ms) => Good(if ms == 0 then None else Some(ms)))
    case Some(_) => Bad("subscriptions.delivery_preferences")
  }

  predicate IsInteger(value: Json) {
    value.Signed? || value.Unsigned?
  }

  function IntegerOf(value: Json): int
    requires IsInteger(value)
  {
    match value
    case Signed(raw) => raw
    case Unsigned(raw) => raw
  }

  /** What is asked for under "interval_ms", by the shape of the two fields. */
  lemma IntervalsAreExact(entry: map<string, Json>)
    ensures var parsed, key := ParseIntervalMs(entry), "delivery_preferences";
            && (key !in entry ==> parsed == Good(None))
            && (key in entry && !entry[key].Object? ==> parsed == Bad("subscriptions.delivery_preferences"))
    ensures var parsed, key := ParseIntervalMs(entry), "delivery_preferences";
            key in entry && entry[key].Object? ==>
              var preferences := entry[key].fields;
              && ("interval_ms" !in preferences ==> parsed == Good(None))
              && ("interval_ms" in preferences ==>
                    if IsInteger(preferences["interval_ms"]) then
                      var raw := IntegerOf(preferences["interval_ms"]);
                      parsed == Good(if raw == 0 then None
                                     else if raw < -0x8000_0000 then Some(-0x8000_0000)
                                     else if raw > 0x7fff_ffff then Some(0x7fff_ffff)
                                     else Some(raw))
                    else parsed == Bad("subscriptions.delivery_preferences.interval_ms"))
  {
  }

  datatype Target = Target(kind: Kind, name: string)

  /** An entry: a wish for a target, or of a kind that the bridge does not know. */
  datatype Entry = Wish(target: Target, interval: Option<int>) | Foreign(refused: Unsupported)

  function KindOf(wire: string): Option<Kind> {
    if wire == "topic" then Some(Topic)
    else if wire == "other_video" then Some(OtherVideo)
    else if wire == "other_audio" then Some(OtherAudio)
    else None
  }

  lemma KindOfIsInverse(wire: string, kind: Kind)
    ensures KindOf(wire) == Some(kind) <==> wire == Label(kind)
  {
  }

  /** `expand` stands for the expansion of a topic name, which may refuse. */
  function ParseName(kind: Kind, name: Option<Json>, expand: string -> Option<string>): Result<string> {
    match name
    case Some(Str(raw)) =>
      if kind.Topic? then
        (match expand(Trim(raw))
         case None => Bad("subscriptions.name")
         case Some(full) => Good(full))
      else if Trim(raw) == "" then Bad("subscriptions.name")
      else Good(Trim(raw))
    case _ => Bad("subscriptions.name")
  }

  /** A name is a text; a topic name is what its trimmed text expands to, and any other is the trimmed text
      itself, which must not be empty. */
  lemma NamesAreExact(kind: Kind, name: Option<Json>, expand: string -> Option<string>, full: string)
    ensures ParseName(kind, name, expand) == Good(full) <==>
              && name.Some? && name.value.Str?
              && var text := Trim(name.value.text);
              if kind == Topic then expand(text) == Some(full) else full == text != ""
    ensures ParseName(kind, name, expand).Bad? ==> ParseName(kind, name, expand).field == "subscriptions.name"
  {
  }

  function ParseFields(entry: map<string, Json>, expand: string -> Option<string>): Result<Entry> {
    match Field(entry, "kind")
    case Some(Str(raw)) =>
      if Trim(raw) == "" then Bad("subscriptions.kind")
      else
        (match KindOf(Trim(raw))
         case None =>
           var name := match Field(entry, "name") case Some(Str(text)) => Some(text) case _ => None;
           Good(Foreign(Unsupported(raw, name)))
         case Some(kind) =>
           match ParseName(kind, Field(entry, "name"), expand)
           case Bad(field) => Bad(field)
           case Good(name) =>
             match ParseIntervalMs(entry)
             case Bad(field) => Bad(field)
             case Good(interval) => Good(Wish(Target(kind, name), interval)))
    case _ => Bad("subscriptions.kind")
  }

  function ParseEntry(entry: Json, expand: string -> Option<string>): Result<Entry> {
    if entry.Object? then ParseFields(entry.fields, expand) else Bad("subscriptions")
  }

  predicate HasKind(entry: map<string, Json>, wire: string) {
    "kind" in entry && entry["kind"].Str? && Trim(entry["kind"].text) == wire
  }

  /** An entry is a wish for a target exactly if its trimmed kind is the wire name of the target's kind, and
      its name and its interval are valid. */
  lemma WishesAreExact(entry: map<string, Json>, expand: string -> Option<string>, target: Target,
                       interval: Option<int>)
    ensures ParseFields(entry, expand) == Good(Wish(target, interval)) <==>
              && HasKind(entry, Label(target.kind))
              && ParseName(target.kind, Field(entry, "name"), expand) == Good(target.name)
              && ParseIntervalMs(entry) == Good(interval)
  {
    hide ParseName, ParseIntervalMs, Trim;
    if "kind" in entry && entry["kind"].Str? {
      KindOfIsInverse(Trim(entry["kind"].text), target.kind);
    }
  }

  /** Which field of an entry is at fault: the kind comes before the name, and that before the interval. */
  lemma FaultsAreOrdered(entry: Json, expand: string -> Option<string>)
    ensures !entry.Object? ==> ParseEntry(entry, expand) == Bad("subscriptions")
    ensures entry.Object? && ("kind" !in entry.fields || !entry.fields["kind"].Str? || HasKind(entry.fields, "")) ==>
              ParseEntry(entry, expand) == Bad("subscriptions.kind")
    ensures forall kind: Kind :: entry.Object? && HasKind(entry.fields, Label(kind)) ==>
              var name, interval := ParseName(kind, Field(entry.fields, "name"), expand), ParseIntervalMs(entry.fields);
              && (name.Bad? ==> ParseEntry(entry, expand) == Bad("subscriptions.name"))
              && (name.Good? && interval.Bad? ==> ParseEntry(entry, expand) == Bad(interval.field))
  {
    hide ParseIntervalMs, Trim;
    if entry.Object? {
      var fields := entry.fields;
      forall kind: Kind | HasKind(fields, Label(kind))
        ensures var name, interval := ParseName(kind, Field(fields, "name"), expand), ParseIntervalMs(fields);
                && (name.Bad? ==> ParseEntry(entry, expand) == Bad("subscriptions.name"))
                && (name.Good? && interval.Bad? ==> ParseEntry(entry, expand) == Bad(interval.field))
      {
        KindOfIsInverse(Trim(fields["kind"].text), kind);
      }
    }
  }

  /** An unknown kind is never an error, whatever else the entry holds, and is echoed as it came. */
  lemma ForeignIsNotValidated(entry: map<string, Json>, expand: string -> Option<string>, raw: string)
    requires Field(entry, "kind") == Some(Str(raw)) && Trim(raw) != "" && KindOf(Trim(raw)).None?
    ensures exists name: Option<string> :: ParseFields(entry, expand) == Good(Foreign(Unsupported(raw, name)))
              && (name.Some? <==> exists text: string :: Field(entry, "name") == Some(Str(text)) && name == Some(text))
  {
    var parsed := ParseFields(entry, expand);
    var name := parsed.value.refused.name;
    assert parsed == Good(Foreign(Unsupported(raw, name)));
    if name.Some? {
      assert Field(entry, "name") == Some(Str(name.value));
    }
  }

  // ---------------------------------------------------------------------------------------------
  // First-seen order
  // ---------------------------------------------------------------------------------------------

  function Last<T>(s: seq<T>): T
    requires s != []
  {
    s[|s| - 1]
  }

  function Init<T>(s: seq<T>): seq<T>
    requires s != []
  {
    s[..|s| - 1]
  }

  function FirstSeen<T(==)>(s: seq<T>): seq<T> {
    if s == [] then []
    else if Last(s) in Init(s) then FirstSeen(Init(s))
    else FirstSeen(Init(s)) + [Last(s)]
  }

  function FirstAt<T(==)>(s: seq<T>, x: T): (i: nat)
    requires x in s
    ensures i < |s| && s[i] == x && x !in s[..i]
  {
    if x in Init(s) then
      var i := FirstAt(Init(s), x);
      assert Init(s)[..i] == s[..i];
      i
    else |s| - 1
  }

  lemma {:induction false} FirstSeenHolds<T>(s: seq<T>, x: T)
    ensures x in FirstSeen(s) <==> x in s
  {
    if s != [] {
      assert s == Init(s) + [Last(s)];
      FirstSeenHolds(Init(s), x);
    }
  }

  /** Each element comes once, where it came first. */
  lemma {:induction false} FirstSeenIsOrdered<T>(s: seq<T>, i: nat, j: nat)
    requires i < j < |FirstSeen(s)|
    ensures FirstSeen(s)[i] in s && FirstSeen(s)[j] in s
    ensures FirstAt(s, FirstSeen(s)[i]) < FirstAt(s, FirstSeen(s)[j])
  {
    var r := FirstSeen(s);
    FirstSeenHolds(s, r[i]);
    FirstSeenHolds(s, r[j]);
    var before := FirstSeen(Init(s));
    FirstSeenHolds(Init(s), r[i]);
    if j < |before| {
      FirstSeenHolds(Init(s), r[j]);
      FirstSeenIsOrdered(Init(s), i, j);
    }
  }

  lemma FirstSeenIsDistinct<T>(s: seq<T>, i: nat, j: nat)
    requires i < j < |FirstSeen(s)|
    ensures FirstSeen(s)[i] != FirstSeen(s)[j]
  {
    FirstSeenIsOrdered(s, i, j);
  }

  // ---------------------------------------------------------------------------------------------
  // What the entries ask for
  // ---------------------------------------------------------------------------------------------

  function Targets(entries: seq<Entry>): seq<Target> {
    if entries == [] then []
    else Targets(Init(entries)) + (if Last(entries).Wish? then [Last(entries).target] else [])
  }

  function Refused(entries: seq<Entry>): seq<Unsupported> {
    if entries == [] then []
    else Refused(Init(entries)) + (if Last(entries).Foreign? then [Last(entries).refused] else [])
  }

  /** The smaller of two intervals, of which either may be absent. */
  function Smaller(a: Option<int>, b: Option<int>): Option<int> {
    if b.None? || (a.Some? && b.value >= a.value) then a else b
  }

  function IntervalOf(entries: seq<Entry>, t: Target): Option<int> {
    if entries == [] then None
    else Smaller(IntervalOf(Init(entries), t),
                 if Last(entries).Wish? && Last(entries).target == t then Last(entries).interval else None)
  }

  function DemandOf(entries: seq<Entry>, t: Target): Demand {
    Demand(t.kind, t.name, IntervalOf(entries, t))
  }

  /** One demand per target, in the order in which the targets were first seen. */
  function Demands(entries: seq<Entry>): (d: seq<Demand>)
    ensures |d| == |FirstSeen(Targets(entries))|
  {
    var ts := FirstSeen(Targets(entries));
    seq(|ts|, i requires 0 <= i < |ts| => DemandOf(entries, ts[i]))
  }

  predicate Asks(e: Entry, t: Target, ms: int) {
    e == Wish(t, Some(ms))
  }

  ghost predicate SomeoneAsks(entries: seq<Entry>, t: Target, ms: int) {
    exists e: Entry :: e in entries && Asks(e, t, ms)
  }

  ghost predicate IsSmallest(interval: Option<int>, entries: seq<Entry>, t: Target) {
    match interval
    case None => forall ms: int :: !SomeoneAsks(entries, t, ms)
    case Some(least) => SomeoneAsks(entries, t, least) && forall ms: int :: SomeoneAsks(entries, t, ms) ==> least <= ms
  }

  lemma OneMoreAsks(entries: seq<Entry>, e: Entry, t: Target, ms: int)
    ensures SomeoneAsks(entries + [e], t, ms) <==> SomeoneAsks(entries, t, ms) || Asks(e, t, ms)
  {
  }

  /** The interval of a target is the smallest that its entries ask for. */
  lemma {:induction false} IntervalIsSmallest(entries: seq<Entry>, t: Target)
    ensures IsSmallest(IntervalOf(entries, t), entries, t)
  {
    if entries != [] {
      IntervalIsSmallest(Init(entries), t);
      assert entries == Init(entries) + [Last(entries)];
      forall ms: int
        ensures SomeoneAsks(entries, t, ms) <==> SomeoneAsks(Init(entries), t, ms) || Asks(Last(entries), t, ms)
      {
        OneMoreAsks(Init(entries), Last(entries), t, ms);
      }
    }
  }

  lemma SmallestIsUnique(entries: seq<Entry>, others: seq<Entry>, t: Target, a: Option<int>, b: Option<int>)
    requires IsSmallest(a, entries, t) && IsSmallest(b, others, t)
    requires forall e: Entry :: e in entries <==> e in others
    ensures a == b
  {
    assert forall ms: int :: SomeoneAsks(entries, t, ms) <==> SomeoneAsks(others, t, ms);
  }

  lemma {:induction false} TargetsHold(entries: seq<Entry>, t: Target)
    ensures t in Targets(entries) <==> exists e: Entry :: e in entries && e.Wish? && e.target == t
  {
    if entries != [] {
      TargetsHold(Init(entries), t);
      assert entries == Init(entries) + [Last(entries)];
      assert forall e: Entry :: e in entries <==> e in Init(entries) || e == Last(entries);
    }
  }

  /** The demands name each target that is asked for once, in first-seen order, with its smallest
      interval. */
  lemma DemandsAreCoalesced(entries: seq<Entry>, i: nat)
    requires i < |Demands(entries)|
    ensures var d := Demands(entries)[i];
            var t := Target(d.kind, d.name);
            && t in Targets(entries)
            && IsSmallest(d.preferred, entries, t)
            && (forall j :: i < j < |Demands(entries)| ==>
                  var u := Target(Demands(entries)[j].kind, Demands(entries)[j].name);
                  u in Targets(entries) && u != t && FirstAt(Targets(entries), t) < FirstAt(Targets(entries), u))
  {
    var ts := FirstSeen(Targets(entries));
    FirstSeenHolds(Targets(entries), ts[i]);
    IntervalIsSmallest(entries, ts[i]);
    forall j | i < j < |ts|
      ensures ts[j] in Targets(entries) && FirstAt(Targets(entries), ts[i]) < FirstAt(Targets(entries), ts[j])
    {
      FirstSeenIsOrdered(Targets(entries), i, j);
    }
  }

  lemma EveryTargetIsDemanded(entries: seq<Entry>, t: Target)
    ensures t in Targets(entries) <==> DemandOf(entries, t) in Demands(entries)
  {
    var ts := FirstSeen(Targets(entries));
    FirstSeenHolds(Targets(entries), t);
    if t in ts {
      var i :| 0 <= i < |ts| && ts[i] == t;
      assert Demands(entries)[i] == DemandOf(entries, t);
    }
    if DemandOf(entries, t) in Demands(entries) {
      var i :| 0 <= i < |ts| && Demands(entries)[i] == DemandOf(entries, t);
      assert ts[i] == t;
    }
  }

  /** The order of the entries, and how often they come, makes no difference to what is demanded. */
  lemma PermutationKeepsDemands(entries: seq<Entry>, others: seq<Entry>, d: Demand)
    requires forall e: Entry :: e in entries <==> e in others
    ensures d in Demands(entries) <==> d in Demands(others)
  {
    var t := Target(d.kind, d.name);
    TargetsHold(entries, t);
    TargetsHold(others, t);
    EveryTargetIsDemanded(entries, t);
    EveryTargetIsDemanded(others, t);
    IntervalIsSmallest(entries, t);
    IntervalIsSmallest(others, t);
    SmallestIsUnique(entries, others, t, IntervalOf(entries, t), IntervalOf(others, t));
    DemandIsOfItsTarget(entries, d);
    DemandIsOfItsTarget(others, d);
  }

  lemma DemandIsOfItsTarget(entries: seq<Entry>, d: Demand)
    ensures d in Demands(entries) ==> d == DemandOf(entries, Target(d.kind, d.name))
  {
  }

  // ---------------------------------------------------------------------------------------------
  // The whole heartbeat
  // ---------------------------------------------------------------------------------------------

  /** Missing, null and blank values are absent. */
  function ParseSession(body: map<string, Json>): Result<Option<string>> {
    match Field(body, "session_id")
    case None => Good(None)
    case Some(Null) => Good(None)
    case Some(Str(raw)) => Good(if Trim(raw) == "" then None else Some(Trim(raw)))
    case Some(_) => Bad("session_id")
  }

  /** A session is known by its trimmed text. */
  lemma SessionsAreExact(body: map<string, Json>)
    ensures var parsed, key := ParseSession(body), "session_id";
            && (key !in body || body[key] == Null ==> parsed == Good(None))
            && (key in body && body[key].Str? ==>
                  var id := Trim(body[key].text);
                  parsed == if id == "" then Good(None) else Good(Some(id)))
            && (key in body && !body[key].Null? && !body[key].Str? ==> parsed == Bad("session_id"))
  {
  }

  function ParseEntries(items: seq<Json>, expand: string -> Option<string>): Result<seq<Entry>> {
    if items == [] then Good([])
    else
      match ParseEntries(Init(items), expand)
      case Bad(field) => Bad(field)
      case Good(entries) =>
        match ParseEntry(Last(items), expand)
        case Bad(field) => Bad(field)
        case Good(entry) => Good(entries + [entry])
  }

  function ParseBody(body: map<string, Json>, expand: string -> Option<string>): Result<Heartbeat> {
    match ParseSession(body)
    case Bad(field) => Bad(field)
    case Good(session) =>
      match Field(body, "subscriptions")
      case Some(Array(items)) =>
        (match ParseEntries(items, expand)
         case Bad(field) => Bad(field)
         case Good(entries) => Good(Heartbeat(session, Demands(entries), FirstSeen(Refused(entries)))))
      case _ => Bad("subscriptions")
  }

  /** The session is looked at first; a heartbeat must have a list of entries, and is made of what all of
      them ask for. */
  lemma BodyIsExact(body: map<string, Json>, expand: string -> Option<string>)
    ensures var parsed, key := ParseBody(body, expand), "subscriptions";
            && (ParseSession(body).Bad? ==> parsed == Bad("session_id"))
            && (ParseSession(body).Good? && (key !in body || !body[key].Array?) ==> parsed == Bad("subscriptions"))
            && (ParseSession(body).Good? && key in body && body[key].Array? ==>
                  var entries := ParseEntries(body[key].items, expand);
                  && (parsed.Good? <==> entries.Good?)
                  && (parsed.Bad? ==> parsed.field == entries.field)
                  && (parsed.Good? ==>
                        && parsed.value.session == ParseSession(body).value
                        && parsed.value.demands == Demands(entries.value)
                        && parsed.value.unsupported == FirstSeen(Refused(entries.value))))
  {
    hide ParseEntries, Demands, FirstSeen, Refused;
  }

  ghost predicate FirstInvalid(items: seq<Json>, expand: string -> Option<string>, i: nat) {
    && i < |items|
    && ParseEntry(items[i], expand).Bad?
    && forall j :: 0 <= j < i ==> ParseEntry(items[j], expand).Good?
  }

  lemma {:induction false} GoodEntries(items: seq<Json>, expand: string -> Option<string>)
    requires ParseEntries(items, expand).Good?
    ensures |ParseEntries(items, expand).value| == |items|
    ensures forall i :: 0 <= i < |items| ==> ParseEntry(items[i], expand) == Good(ParseEntries(items, expand).value[i])
    decreases |items|
  {
    hide ParseEntry;
    if items != [] {
      GoodEntries(Init(items), expand);
      assert items == Init(items) + [Last(items)];
    }
  }

  lemma {:induction false} BadEntry(items: seq<Json>, expand: string -> Option<string>) returns (i: nat)
    requires ParseEntries(items, expand).Bad?
    ensures FirstInvalid(items, expand, i) && ParseEntry(items[i], expand).field == ParseEntries(items, expand).field
    decreases |items|
  {
    hide ParseEntry;
    if ParseEntries(Init(items), expand).Bad? {
      i := BadEntry(Init(items), expand);
      assert forall j :: 0 <= j <= i ==> items[j] == Init(items)[j];
    } else {
      i := |items| - 1;
      GoodEntries(Init(items), expand);
      assert forall j :: 0 <= j < i ==> items[j] == Init(items)[j];
    }
  }

  /** The entries are accepted iff each is, and otherwise the first that is not is reported. */
  lemma FirstInvalidIsReported(items: seq<Json>, expand: string -> Option<string>)
    ensures var parsed := ParseEntries(items, expand);
            && (parsed.Good? ==>
                  && |parsed.value| == |items|
                  && forall i :: 0 <= i < |items| ==> ParseEntry(items[i], expand) == Good(parsed.value[i]))
            && (parsed.Bad? ==>
                  exists i: nat :: FirstInvalid(items, expand, i) && ParseEntry(items[i], expand).field == parsed.field)
  {
    if ParseEntries(items, expand).Good? {
      GoodEntries(items, expand);
    } else {
      var i := BadEntry(items, expand);
    }
  }

  // ---------------------------------------------------------------------------------------------
  // In place
  // ---------------------------------------------------------------------------------------------

  function KeyOf(t: Target): TargetKey {
    MakeKey(t.kind, t.name)
  }

  /** `index` holds the position of each target. */
  ghost predicate Indexes(index: map<TargetKey, nat>, targets: seq<Target>) {
    && (forall t: Target :: KeyOf(t) in index <==> t in targets)
    && (forall t: Target :: KeyOf(t) in index ==> index[KeyOf(t)] < |targets| && targets[index[KeyOf(t)]] == t)
  }

  lemma IndexOneMore(index: map<TargetKey, nat>, targets: seq<Target>, t: Target)
    requires Indexes(index, targets) && t !in targets
    ensures Indexes(index[KeyOf(t) := |targets|], targets + [t])
  {
    forall u: Target | u != t ensures KeyOf(u) != KeyOf(t) {
      if KeyOf(u) == KeyOf(t) {
        MakeKeyIsInjective(u.kind, u.name, t.kind, t.name);
      }
    }
  }

  lemma OneMore(entries: seq<Entry>, e: Entry)
    ensures Init(entries + [e]) == entries && Last(entries + [e]) == e
  {
  }

  lemma TargetsOneMore(entries: seq<Entry>, e: Entry)
    ensures var ts, more := FirstSeen(Targets(entries)), FirstSeen(Targets(entries + [e]));
            more == if e.Wish? && e.target !in ts then ts + [e.target] else ts
    ensures Refused(entries + [e]) == Refused(entries) + (if e.Foreign? then [e.refused] else [])
  {
    OneMore(entries, e);
    if e.Wish? {
      var all := Targets(entries);
      assert Targets(entries + [e]) == all + [e.target];
      assert Init(all + [e.target]) == all && Last(all + [e.target]) == e.target;
      FirstSeenHolds(all, e.target);
    } else {
      assert Targets(entries + [e]) == Targets(entries) + [] == Targets(entries);
    }
  }

  lemma UnknownTargetHasNoInterval(entries: seq<Entry>, t: Target)
    requires t !in Targets(entries)
    ensures IntervalOf(entries, t) == None
  {
  }

  lemma IntervalOneMore(entries: seq<Entry>, e: Entry, t: Target)
    ensures IntervalOf(entries + [e], t)
            == if e.Wish? && e.target == t then Smaller(IntervalOf(entries, t), e.interval) else IntervalOf(entries, t)
  {
  }

  lemma NewDemand(entries: seq<Entry>, e: Entry)
    requires e.Wish? && e.target !in FirstSeen(Targets(entries))
    ensures Demands(entries + [e]) == Demands(entries) + [Demand(e.target.kind, e.target.name, e.interval)]
  {
    hide FirstSeen, Targets, IntervalOf;
    var ts := FirstSeen(Targets(entries));
    TargetsOneMore(entries, e);
    FirstSeenHolds(Targets(entries), e.target);
    UnknownTargetHasNoInterval(entries, e.target);
    forall t: Target ensures t in ts || t == e.target ==>
        DemandOf(entries + [e], t).preferred == if t == e.target then e.interval else IntervalOf(entries, t) {
      IntervalOneMore(entries, e, t);
    }
    assert FirstSeen(Targets(entries + [e])) == ts + [e.target];
  }

  lemma KnownDemand(entries: seq<Entry>, e: Entry, at: nat)
    requires e.Wish? && at < |FirstSeen(Targets(entries))| && FirstSeen(Targets(entries))[at] == e.target
    ensures var d := Demands(entries);
            Demands(entries + [e]) == d[at := d[at].(preferred := Smaller(d[at].preferred, e.interval))]
  {
    var ts := FirstSeen(Targets(entries));
    TargetsOneMore(entries, e);
    forall i | 0 <= i < |ts| ensures IntervalOf(entries + [e], ts[i])
        == if i == at then Smaller(IntervalOf(entries, ts[i]), e.interval) else IntervalOf(entries, ts[i]) {
      IntervalOneMore(entries, e, ts[i]);
      if i < at {
        FirstSeenIsDistinct(Targets(entries), i, at);
      } else if at < i {
        FirstSeenIsDistinct(Targets(entries), at, i);
      }
    }
  }

  lemma ForeignDemandsNothing(entries: seq<Entry>, e: Entry)
    requires e.Foreign?
    ensures Demands(entries + [e]) == Demands(entries)
  {
    var ts := FirstSeen(Targets(entries));
    TargetsOneMore(entries, e);
    forall i | 0 <= i < |ts| ensures IntervalOf(entries + [e], ts[i]) == IntervalOf(entries, ts[i]) {
      IntervalOneMore(entries, e, ts[i]);
    }
  }

  lemma RefuseOneMore(entries: seq<Entry>, e: Entry)
    ensures FirstSeen(Refused(entries + [e]))
            == if e.Foreign? && e.refused !in Refused(entries) then FirstSeen(Refused(entries)) + [e.refused]
               else FirstSeen(Refused(entries))
  {
    TargetsOneMore(entries, e);
    var all := Refused(entries);
    if e.Foreign? {
      assert Init(all + [e.refused]) == all && Last(all + [e.refused]) == e.refused;
    } else {
      assert all + [] == all;
    }
  }

  /** The variables of parse(). */
  class Parser {
    var demands: seq<Demand>
    var unsupported: seq<Unsupported>
    var indexByTarget: map<TargetKey, nat>
    var seenUnsupported: set<Unsupported>
    ghost var entries: seq<Entry>

    ghost predicate Valid()
      reads this
    {
      && demands == Demands(entries)
      && Indexes(indexByTarget, FirstSeen(Targets(entries)))
      && unsupported == FirstSeen(Refused(entries))
      && (forall u: Unsupported :: u in seenUnsupported <==> u in Refused(entries))
    }

    constructor ()
      ensures Valid() && entries == []
    {
      demands, unsupported, indexByTarget, seenUnsupported, entries := [], [], map[], {}, [];
    }

    method AddForeign(refused: Unsupported)
      requires Valid()
      modifies this
      ensures Valid() && entries == old(entries) + [Foreign(refused)]
    {
      TargetsOneMore(entries, Foreign(refused));
      ForeignDemandsNothing(entries, Foreign(refused));
      RefuseOneMore(entries, Foreign(refused));
      if refused !in seenUnsupported {
        seenUnsupported := seenUnsupported + {refused};
        unsupported := unsupported + [refused];
      }
      entries := entries + [Foreign(refused)];
    }

    method Insert(target: Target, interval: Option<int>)
      requires Valid() && target !in FirstSeen(Targets(entries))
      modifies this
      ensures Valid() && entries == old(entries) + [Wish(target, interval)]
    {
      hide Indexes, FirstSeen, Targets, Refused, MakeKey;
      ghost var e := Wish(target, interval);
      TargetsOneMore(entries, e);
      RefuseOneMore(entries, e);
      NewDemand(entries, e);
      IndexOneMore(indexByTarget, FirstSeen(Targets(entries)), target);
      assert Refused(entries + [e]) == Refused(entries);
      indexByTarget := indexByTarget[KeyOf(target) := |demands|];
      demands := demands + [Demand(target.kind, target.name, interval)];
      entries := entries + [e];
    }

    method Lower(at: nat, interval: Option<int>)
      requires at < |demands|
      modifies this`demands
      ensures var d := old(demands)[at];
              demands == old(demands)[at := d.(preferred := Smaller(d.preferred, interval))]
    {
      assert demands[at := demands[at]] == demands;
      if interval.None? {
        return;
      }
      var current := demands[at].preferred;
      if current.Some? && interval.value >= current.value {
        return;
      }
      demands := demands[at := demands[at].(preferred := interval)];
    }

    method AddWish(target: Target, interval: Option<int>)
      requires Valid()
      modifies this
      ensures Valid() && entries == old(entries) + [Wish(target, interval)]
    {
      hide FirstSeen, Targets, Refused, MakeKey;
      if KeyOf(target) !in indexByTarget {
        Insert(target, interval);
        return;
      }
      ghost var e := Wish(target, interval);
      var at := indexByTarget[KeyOf(target)];
      TargetsOneMore(entries, e);
      RefuseOneMore(entries, e);
      KnownDemand(entries, e, at);
      assert Refused(entries + [e]) == Refused(entries);
      Lower(at, interval);
      entries := entries + [e];
    }
  }

  /** The loop over the entries. */
  method ParseItems(items: seq<Json>, expand: string -> Option<string>)
    returns (r: Result<(seq<Demand>, seq<Unsupported>)>)
    ensures match ParseEntries(items, expand)
            case Bad(field) => r == Bad(field)
            case Good(entries) => r == Good((Demands(entries), FirstSeen(Refused(entries))))
  {
    var parser := new Parser();
    for i := 0 to |items|
      invariant parser.Valid() && fresh(parser)
      invariant ParseEntries(items[..i], expand) == Good(parser.entries)
    {
      assert Init(items[..i + 1]) == items[..i] && Last(items[..i + 1]) == items[i];
      var parsed := ParseEntry(items[i], expand);
      match parsed {
        case Bad(field) =>
          BadForGood(items, i + 1, expand);
          return Bad(field);
        case Good(Foreign(refused)) => parser.AddForeign(refused);
        case Good(Wish(target, interval)) => parser.AddWish(target, interval);
      }
    }
    assert items[..|items|] == items;
    return Good((parser.demands, parser.unsupported));
  }

  lemma {:induction false} BadForGood(items: seq<Json>, i: nat, expand: string -> Option<string>)
    requires i <= |items| && ParseEntries(items[..i], expand).Bad?
    ensures ParseEntries(items, expand) == ParseEntries(items[..i], expand)
    decreases |items|
  {
    if i == |items| {
      assert items[..i] == items;
    } else {
      assert Init(items)[..i] == items[..i];
      BadForGood(Init(items), i, expand);
    }
  }

  method Parse(body: map<string, Json>, expand: string -> Option<string>) returns (r: Result<Heartbeat>)
    ensures r == ParseBody(body, expand)
  {
    var session := ParseSession(body);
    if session.Bad? {
      return Bad(session.field);
    }
    if "subscriptions" !in body {
      return Bad("subscriptions");
    }
    var found := body["subscriptions"];
    if !found.Array? {
      return Bad("subscriptions");
    }
    var parsed := ParseItems(found.items, expand);
    match parsed
    case Bad(field) => return Bad(field);
    case Good((demands, unsupported)) => return Good(Heartbeat(session.value, demands, unsupported));
  }
}
