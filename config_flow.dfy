/** The setup form and the options forms: what each accepts and what it
    stores.  Form rendering is not modelled; a form submission is its
    field values, a field left out being `None`. */
module ConfigFlow {
  import opened Basics
  import Database

  const DEFAULT_UPCOMING_COUNT: int := 10
  const DEFAULT_UPDATE_INTERVAL: int := 30
  const DEFAULT_ENABLE_NOTIFICATIONS: bool := true
  const MIN_UPDATE_INTERVAL: int := 15
  const MAX_UPDATE_INTERVAL: int := 120
  /** The choices the setup form offers for the number of upcoming songs. */
  const UPCOMING_COUNTS: set<int> := {10, 20}
  /** The rule types the add-rule form offers. */
  const RULE_TYPES: set<string> := {"artist", "title"}
  const PERSISTENT_TARGET: string := "persistent_notification"
  const DEFAULT_POSITIONS_TEXT: string := "1,2,3"

  // ---------------------------------------------------------------------
  // The setup form
  // ---------------------------------------------------------------------

  /** A submitted value: a number, or text to be converted. */
  datatype Value = Number(n: int) | Text(s: string)

  datatype UserInput = UserInput(upcomingCount: Option<int>, updateInterval: Option<Value>,
                                 enableNotifications: Option<bool>)

  /** The entry the setup form creates. */
  datatype EntryData = EntryData(upcomingCount: int, updateInterval: int, enableNotifications: bool)

  /** `int(value)`: a number as it is, text with surrounding whitespace
      ignored. */
  function Coerce(v: Value): (r: Option<int>)
    ensures v.Number? ==> r == Some(v.n)
  {
    match v
    case Number(n) => Some(n)
    case Text(s) => ParseInt(Strip(s))
  }

  /** The setup form's schema: the count must be one of the offered
      choices, the interval must convert to an integer in range; a field
      left out takes its default. */
  function ValidateUser(input: UserInput): (r: Option<EntryData>)
    ensures r.Some? ==> r.value.upcomingCount in UPCOMING_COUNTS
    ensures r.Some? ==> MIN_UPDATE_INTERVAL <= r.value.updateInterval <= MAX_UPDATE_INTERVAL
    ensures r.Some? ==> r.value.enableNotifications == input.enableNotifications.GetOr(DEFAULT_ENABLE_NOTIFICATIONS)
    ensures r.None? <==>
              input.upcomingCount.GetOr(DEFAULT_UPCOMING_COUNT) !in UPCOMING_COUNTS ||
              Coerce(input.updateInterval.GetOr(Number(DEFAULT_UPDATE_INTERVAL))).None? ||
              !(MIN_UPDATE_INTERVAL <= Coerce(input.updateInterval.GetOr(Number(DEFAULT_UPDATE_INTERVAL))).value
                <= MAX_UPDATE_INTERVAL)
  {
    var count := input.upcomingCount.GetOr(DEFAULT_UPCOMING_COUNT);
    var interval := Coerce(input.updateInterval.GetOr(Number(DEFAULT_UPDATE_INTERVAL)));
    if count !in UPCOMING_COUNTS || interval.None? then None
    else if !(MIN_UPDATE_INTERVAL <= interval.value <= MAX_UPDATE_INTERVAL) then None
    else Some(EntryData(count, interval.value, input.enableNotifications.GetOr(DEFAULT_ENABLE_NOTIFICATIONS)))
  }

  /** Submitting the setup form untouched is accepted with the defaults. */
  lemma DefaultsAccepted()
    ensures ValidateUser(UserInput(None, None, None)) ==
            Some(EntryData(DEFAULT_UPCOMING_COUNT, DEFAULT_UPDATE_INTERVAL, DEFAULT_ENABLE_NOTIFICATIONS))
  {
  }

  // ---------------------------------------------------------------------
  // Parsing the notification settings
  // ---------------------------------------------------------------------

  /** The parts that are not blank, stripped, in order. */
  function Kept(parts: seq<string>): (r: seq<string>)
    ensures |r| <= |parts|
    ensures forall i :: 0 <= i < |r| ==> r[i] != ""
  {
    if parts == [] then []
    else
      var last := Strip(parts[|parts| - 1]);
      Kept(parts[..|parts| - 1]) + if last != "" then [last] else []
  }

  /** The targets field: split on commas, each part stripped, blank ones
      dropped; nothing left means the persistent notification. */
  function ParseTargets(text: Option<string>): (r: seq<string>)
    ensures r != [] && forall i :: 0 <= i < |r| ==> r[i] != ""
    ensures Kept(Split(text.GetOr(""), ',')) == [] ==> r == [PERSISTENT_TARGET]
    ensures Kept(Split(text.GetOr(""), ',')) != [] ==> r == Kept(Split(text.GetOr(""), ','))
  {
    var kept := Kept(Split(text.GetOr(""), ','));
    if kept == [] then [PERSISTENT_TARGET] else kept
  }

  /** A part that is not blank and not an integer. */
  predicate Malformed(part: string) {
    Strip(part) != "" && ParseInt(Strip(part)).None?
  }

  /** Each non-blank part, stripped, read as an integer; `None` as soon as
      one of them is not an integer. */
  function ParseAll(parts: seq<string>): (r: Option<seq<int>>)
    ensures r.Some? ==> |r.value| == |Kept(parts)|
  {
    if parts == [] then Some([])
    else
      var p := Strip(parts[|parts| - 1]);
      match ParseAll(parts[..|parts| - 1])
      case None => None
      case Some(xs) =>
        if p == "" then Some(xs)
        else match ParseInt(p)
          case None => None
          case Some(v) => Some(xs + [v])
  }

  lemma ParseAllStep(parts: seq<string>)
    requires parts != []
    ensures ParseAll(parts).None? <==> ParseAll(parts[..|parts| - 1]).None? || Malformed(parts[|parts| - 1])
  {
  }

  lemma ExistsSnoc<T>(xs: seq<T>, init: seq<T>, f: T -> bool)
    requires xs != [] && init == xs[..|xs| - 1]
    ensures (exists i :: 0 <= i < |xs| && f(xs[i])) <==> (exists i :: 0 <= i < |init| && f(init[i])) || f(xs[|xs| - 1])
  {
    if exists i :: 0 <= i < |xs| && f(xs[i]) {
      var i :| 0 <= i < |xs| && f(xs[i]);
      if i < |init| {
        assert init[i] == xs[i];
      }
    }
    if exists i :: 0 <= i < |init| && f(init[i]) {
      var i :| 0 <= i < |init| && f(init[i]);
      assert init[i] == xs[i];
    }
  }

  /** Parsing fails exactly when some part is malformed. */
  lemma {:induction false} ParseAllFails(parts: seq<string>)
    ensures ParseAll(parts).None? <==> exists i :: 0 <= i < |parts| && Malformed(parts[i])
  {
    if parts != [] {
      ParseAllFails(parts[..|parts| - 1]);
      ParseAllStep(parts);
      ExistsSnoc(parts, parts[..|parts| - 1], Malformed);
    }
  }

  /** The positions field: the integers it lists, or `[1, 2, 3]` as soon
      as any non-blank entry is not an integer. */
  function ParseOffsets(text: Option<string>): (r: seq<int>)
    ensures ParseAll(Split(text.GetOr(DEFAULT_POSITIONS_TEXT), ',')).Some? ==>
              r == ParseAll(Split(text.GetOr(DEFAULT_POSITIONS_TEXT), ',')).value
    ensures ParseAll(Split(text.GetOr(DEFAULT_POSITIONS_TEXT), ',')).None? ==> r == [1, 2, 3]
  {
    match ParseAll(Split(text.GetOr(DEFAULT_POSITIONS_TEXT), ','))
    case None => [1, 2, 3]
    case Some(xs) => xs
  }

  /** The targets field as the form pre-fills it. */
  function TargetsText(targets: seq<string>): string {
    Join(targets, ',')
  }

  function Texts(ps: seq<int>): (r: seq<string>)
    ensures |r| == |ps| && forall i :: 0 <= i < |ps| ==> r[i] == IntToString(ps[i])
  {
    seq(|ps|, i requires 0 <= i < |ps| => IntToString(ps[i]))
  }

  /** The positions field as the form pre-fills it. */
  function PositionsText(ps: seq<int>): string {
    Join(Texts(ps), ',')
  }

  predicate Unpadded(s: string) {
    s != "" && !IsSpace(s[0]) && !IsSpace(s[|s| - 1])
  }

  lemma {:induction false} KeptUnpadded(parts: seq<string>)
    requires forall i :: 0 <= i < |parts| ==> Unpadded(parts[i])
    ensures Kept(parts) == parts
  {
    if parts != [] {
      KeptUnpadded(parts[..|parts| - 1]);
      StripUnpadded(parts[|parts| - 1]);
      assert parts[..|parts| - 1] + [parts[|parts| - 1]] == parts;
    }
  }

  /** Targets that are non-empty, free of commas and of surrounding
      whitespace come back unchanged from the pre-filled field. */
  lemma TargetsRoundTrip(targets: seq<string>)
    requires targets != []
    requires forall i :: 0 <= i < |targets| ==> Unpadded(targets[i]) && ',' !in targets[i]
    ensures ParseTargets(Some(TargetsText(targets))) == targets
  {
    SplitJoin(targets, ',');
    KeptUnpadded(targets);
  }

  lemma ParseAllSnoc(parts: seq<string>, xs: seq<int>, v: int)
    requires parts != [] && ParseAll(parts[..|parts| - 1]) == Some(xs)
    requires Strip(parts[|parts| - 1]) != "" && ParseInt(Strip(parts[|parts| - 1])) == Some(v)
    ensures ParseAll(parts) == Some(xs + [v])
  {
  }

  lemma {:induction false} ParseAllTexts(ps: seq<int>)
    ensures ParseAll(Texts(ps)) == Some(ps)
  {
    if ps != [] {
      var init := ps[..|ps| - 1];
      var last := ps[|ps| - 1];
      assert init + [last] == ps;
      ParseAllTexts(init);
      var ts := Texts(ps);
      assert ts[..|ts| - 1] == Texts(init);
      assert ts[|ts| - 1] == IntToString(last);
      StripUnpadded(IntToString(last));
      ParseIntToString(last);
      ParseAllSnoc(ts, init, last);
    }
  }

  /** Any list of positions comes back unchanged from the pre-filled field. */
  lemma PositionsRoundTrip(ps: seq<int>)
    ensures ParseOffsets(Some(PositionsText(ps))) == ps
  {
    if ps == [] {
      assert Join([""], ',') == "";
      SplitJoin([""], ',');
      StripUnpadded("");
    } else {
      SplitJoin(Texts(ps), ',');
      ParseAllTexts(ps);
    }
  }

  // ---------------------------------------------------------------------
  // The options forms
  // ---------------------------------------------------------------------

  datatype SettingsInput = SettingsInput(targets: Option<string>, notifyCurrent: Option<bool>,
                                         notifyUpcoming: Option<bool>, positions: Option<string>)

  /** The settings a submission of the notification form asks to store. */
  function Submitted(input: SettingsInput): (r: Database.Settings)
    ensures r.targets == ParseTargets(input.targets) && r.positions == ParseOffsets(input.positions)
    ensures r.notifyCurrent == input.notifyCurrent.GetOr(true) && r.notifyUpcoming == input.notifyUpcoming.GetOr(false)
  {
    Database.Settings(ParseTargets(input.targets), input.notifyCurrent.GetOr(true),
                      input.notifyUpcoming.GetOr(false), ParseOffsets(input.positions))
  }

  /** The form pre-filled from the stored settings. */
  function Prefilled(s: Database.Settings): SettingsInput {
    SettingsInput(Some(TargetsText(s.targets)), Some(s.notifyCurrent), Some(s.notifyUpcoming),
                  Some(PositionsText(s.positions)))
  }

  /** What storing a submission does to the tables. */
  function StoreSettings(t: Database.Tables, s: Database.Settings): Database.Tables {
    t.UpdateNotificationSettings(Some(s.targets), Some(s.notifyCurrent), Some(s.notifyUpcoming), Some(s.positions))
  }

  /** The pre-filled form, submitted unchanged, asks to store the settings
      it was filled from, as long as the targets survive the comma-joined
      text. */
  lemma PrefilledRoundTrip(s: Database.Settings)
    requires s.targets != [] && forall i :: 0 <= i < |s.targets| ==> Unpadded(s.targets[i]) && ',' !in s.targets[i]
    ensures Submitted(Prefilled(s)) == s
  {
    TargetsRoundTrip(s.targets);
    PositionsRoundTrip(s.positions);
  }

  /** Submitting the pre-filled form without changes keeps the stored
      notification settings as they read back. */
  lemma UnchangedFormKeepsSettings(t: Database.Tables)
    requires var s := t.NotificationSettings();
             s.targets != [] &&
             (forall i :: 0 <= i < |s.targets| ==> Unpadded(s.targets[i]) && ',' !in s.targets[i])
    ensures StoreSettings(t, Submitted(Prefilled(t.NotificationSettings()))).NotificationSettings() ==
            t.NotificationSettings()
  {
    var s := t.NotificationSettings();
    PrefilledRoundTrip(s);
    Database.UpdateNotificationSettingsReadBack(t, Some(s.targets), Some(s.notifyCurrent), Some(s.notifyUpcoming),
                                                Some(s.positions));
  }

  /** The rule the add-rule form accepts: only an artist or a title rule,
      always enabled. */
  function AcceptedRule(ruleType: string, pattern: string): (r: Option<(string, string, bool)>)
    ensures r.Some? <==> ruleType == "artist" || ruleType == "title"
    ensures r.Some? ==> r.value == (ruleType, pattern, true)
  {
    if ruleType in RULE_TYPES then Some((ruleType, pattern, true)) else None
  }

  /** The options flow: each accepted submission makes one store call. */
  class OptionsFlow {
    const db: Database.Catalog

    constructor (db: Database.Catalog)
      ensures this.db == db
    {
      this.db := db;
    }

    /** `async_step_notification_settings` with a submission. */
    method SubmitNotificationSettings(input: SettingsInput)
      requires db.Valid()
      modifies db
      ensures db.Valid()
      ensures db.State() == StoreSettings(old(db.State()), Submitted(input))
    {
      var targets := ParseTargets(input.targets);
      var positions := ParseOffsets(input.positions);
      db.UpdateNotificationSettings(Some(targets), Some(input.notifyCurrent.GetOr(true)),
                                    Some(input.notifyUpcoming.GetOr(false)), Some(positions));
    }

    /** `async_step_add_rule` with a submission; a type the form does not
        offer is rejected by the form and stores nothing. */
    method SubmitRule(ruleType: string, pattern: string) returns (accepted: bool)
      requires db.Valid()
      modifies db
      ensures db.Valid()
      ensures accepted <==> AcceptedRule(ruleType, pattern).Some?
      ensures accepted ==> db.State() == old(db.State()).AddNotificationRule(ruleType, pattern, true)
      ensures !accepted ==> db.State() == old(db.State())
    {
      if ruleType !in RULE_TYPES {
        return false;
      }
      var _ := db.AddNotificationRule(ruleType, pattern, true);
      return true;
    }

    /** `async_step_list_rules` with a submission: the chosen rule, which
        the form only offers among the stored ones, is deleted. */
    method SubmitDelete(choice: Option<int>) returns (accepted: bool)
      requires db.Valid()
      modifies db
      ensures db.Valid()
      ensures accepted <==> choice.None? || exists r :: r in old(db.State()).rules && r.id == choice.value
      ensures accepted && choice.Some? ==> db.State() == old(db.State()).DeleteNotificationRule(choice.value)
      ensures !accepted || choice.None? ==> db.State() == old(db.State())
    {
      if choice.None? {
        return true;
      }
      if !exists r :: r in db.rules && r.id == choice.value {
        return false;
      }
      db.DeleteNotificationRule(choice.value);
      return true;
    }
  }
}
