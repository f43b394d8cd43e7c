/**
 * The event-submission schema `CreatEventSchema`. Every field carries a chain of rules
 * (`.min`, `.max`, `.refine`); every rule of every field is evaluated and each broken one
 * reports its message under the field's name. Times are milliseconds since the epoch and
 * the start of the current day is an input.
 */
module ValidateSchema {
  import opened Types

  const MAX_FILE_SIZE: nat := 5000000
  const ACCEPTED_IMAGE_TYPES: seq<string> :=
    ["image/jpeg", "image/jpg", "image/png", "image/webp", "image/avif"]

  /** `ACCEPTED_IMAGE_TYPES.includes(type)`. */
  predicate AcceptedType(mimeType: string)
  {
    mimeType in ACCEPTED_IMAGE_TYPES
  }

  const NAME_REQUIRED := "Event name is required"
  const NAME_TOO_LONG := "Event name must be less than 100 characters"
  const PRICE_NEGATIVE := "Ticket price must be a positive number"
  const LOCATION_REQUIRED := "Location is required"
  const LOCATION_TOO_LONG := "Location must be less than 200 characters"
  const START_NOT_FUTURE := "Start date must be in the future"
  const IMAGE_REQUIRED := "Image is required."
  const IMAGE_TOO_LARGE := "Max file size is 5MB."
  const IMAGE_BAD_TYPE := ".jpg, .jpeg, .png and .webp files are accepted."
  const AVAILABLE_NEGATIVE := "Ticket available must be a positive number"

  /** A submission as the form hands it over, after the numeric fields have been coerced. */
  datatype Draft = Draft(
    wallet: string,
    name: string,
    ticketPrice: real,
    location: string,
    startAt: int,
    endAt: int,
    image: seq<File>,
    ticketAvailable: real)

  /** One link of a field's chain: the condition it checks and the message it reports when broken. */
  datatype Rule<!T> = Rule(holds: T -> bool, message: string)

  /** A reported problem: the field it is about and its message. */
  datatype Issue = Issue(path: string, message: string)

  /** The messages of the rules `x` breaks, in chain order: at most one per rule. */
  function Failures<T>(x: T, rules: seq<Rule<T>>): (msgs: seq<string>)
    ensures |msgs| <= |rules|
  {
    if rules == [] then []
    else (if rules[0].holds(x) then [] else [rules[0].message]) + Failures(x, rules[1..])
  }

  lemma {:induction false} FailuresEmptyIff<T>(x: T, rules: seq<Rule<T>>)
    ensures Failures(x, rules) == [] <==> forall i :: 0 <= i < |rules| ==> rules[i].holds(x)
  {
    if rules != [] {
      FailuresEmptyIff(x, rules[1..]);
      assert forall i :: 1 <= i < |rules| ==> rules[i] == rules[1..][i - 1];
    }
  }

  lemma {:induction false} FailuresAllBroken<T>(x: T, rules: seq<Rule<T>>)
    requires forall i :: 0 <= i < |rules| ==> !rules[i].holds(x)
    ensures |Failures(x, rules)| == |rules|
    ensures forall i :: 0 <= i < |rules| ==> Failures(x, rules)[i] == rules[i].message
  {
    if rules != [] {
      assert forall i :: 1 <= i < |rules| ==> rules[i] == rules[1..][i - 1];
      FailuresAllBroken(x, rules[1..]);
    }
  }

  /**
   * A JavaScript string's `length`: its number of UTF-16 code units. A character outside the
   * Basic Multilingual Plane (from U+10000 on) is a surrogate pair and counts twice.
   */
  function Utf16Length(s: string): (n: nat)
    ensures |s| <= n <= 2 * |s|
    ensures (forall i :: 0 <= i < |s| ==> (s[i] as int) < 0x1_0000) ==> n == |s|
    ensures (forall i :: 0 <= i < |s| ==> (s[i] as int) >= 0x1_0000) ==> n == 2 * |s|
  {
    if s == [] then 0
    else
      assert forall i :: 1 <= i < |s| ==> s[i] == s[1..][i - 1];
      (if (s[0] as int) < 0x1_0000 then 1 else 2) + Utf16Length(s[1..])
  }

  // The chains, field by field (a field without rules accepts every value of its type).

  const WALLET_RULES: seq<Rule<string>> := []

  const NAME_RULES: seq<Rule<string>> :=
    [Rule(s => 1 <= Utf16Length(s), NAME_REQUIRED), Rule(s => Utf16Length(s) <= 100, NAME_TOO_LONG)]

  const TICKET_PRICE_RULES: seq<Rule<real>> := [Rule(p => p >= 0.0, PRICE_NEGATIVE)]

  const LOCATION_RULES: seq<Rule<string>> :=
    [Rule(s => 1 <= Utf16Length(s), LOCATION_REQUIRED), Rule(s => Utf16Length(s) <= 200, LOCATION_TOO_LONG)]

  function StartAtRules(startOfToday: int): seq<Rule<int>>
  {
    [Rule(t => t > startOfToday, START_NOT_FUTURE)]
  }

  const END_AT_RULES: seq<Rule<int>> := []

  /** The size and type refinements look at `files?.[0]` only; on an empty list both comparisons are false. */
  const IMAGE_RULES: seq<Rule<seq<File>>> := [
    Rule((fs: seq<File>) => 1 <= |fs| <= 4, IMAGE_REQUIRED),
    Rule((fs: seq<File>) => |fs| >= 1 && fs[0].size <= MAX_FILE_SIZE, IMAGE_TOO_LARGE),
    Rule((fs: seq<File>) => |fs| >= 1 && AcceptedType(fs[0].mimeType), IMAGE_BAD_TYPE)
  ]

  const TICKET_AVAILABLE_RULES: seq<Rule<real>> := [Rule(n => n >= 0.0, AVAILABLE_NEGATIVE)]

  function Tagged(path: string, msgs: seq<string>): (issues: seq<Issue>)
    ensures |issues| == |msgs|
    ensures forall i :: 0 <= i < |issues| ==> issues[i] == Issue(path, msgs[i])
  {
    seq(|msgs|, i requires 0 <= i < |msgs| => Issue(path, msgs[i]))
  }

  /** Every issue the schema reports for `d`, field by field in the order of the schema's shape. */
  function Issues(d: Draft, startOfToday: int): (issues: seq<Issue>)
    ensures |issues| <= 10
  {
    Tagged("wallet", Failures(d.wallet, WALLET_RULES))
    + Tagged("name", Failures(d.name, NAME_RULES))
    + Tagged("ticketPrice", Failures(d.ticketPrice, TICKET_PRICE_RULES))
    + Tagged("location", Failures(d.location, LOCATION_RULES))
    + Tagged("startAt", Failures(d.startAt, StartAtRules(startOfToday)))
    + Tagged("endAt", Failures(d.endAt, END_AT_RULES))
    + Tagged("image", Failures(d.image, IMAGE_RULES))
    + Tagged("ticketAvailable", Failures(d.ticketAvailable, TICKET_AVAILABLE_RULES))
  }

  /** The schema accepts a draft when it reports nothing about it. */
  predicate Accepts(d: Draft, startOfToday: int)
    ensures Accepts(d, startOfToday) <==>
      && Failures(d.name, NAME_RULES) == []
      && Failures(d.ticketPrice, TICKET_PRICE_RULES) == []
      && Failures(d.location, LOCATION_RULES) == []
      && Failures(d.startAt, StartAtRules(startOfToday)) == []
      && Failures(d.image, IMAGE_RULES) == []
      && Failures(d.ticketAvailable, TICKET_AVAILABLE_RULES) == []
  {
    Issues(d, startOfToday) == []
  }

  /** A name passes iff it has 1 to 100 UTF-16 code units: exactly 100 is accepted. */
  lemma NameRule(name: string)
    ensures Failures(name, NAME_RULES) == [] <==> 1 <= Utf16Length(name) <= 100
    ensures name == [] ==> Failures(name, NAME_RULES) == [NAME_REQUIRED]
    ensures Utf16Length(name) > 100 ==> Failures(name, NAME_RULES) == [NAME_TOO_LONG]
  {
    FailuresEmptyIff(name, NAME_RULES);
    assert Failures(name, NAME_RULES[1..][1..]) == [];
  }

  /** A location passes iff it has 1 to 200 UTF-16 code units. */
  lemma LocationRule(location: string)
    ensures Failures(location, LOCATION_RULES) == [] <==> 1 <= Utf16Length(location) <= 200
    ensures location == [] ==> Failures(location, LOCATION_RULES) == [LOCATION_REQUIRED]
    ensures Utf16Length(location) > 200 ==> Failures(location, LOCATION_RULES) == [LOCATION_TOO_LONG]
  {
    FailuresEmptyIff(location, LOCATION_RULES);
    assert Failures(location, LOCATION_RULES[1..][1..]) == [];
  }

  /** The coerced price passes iff it is at least zero. */
  lemma TicketPriceRule(price: real)
    ensures Failures(price, TICKET_PRICE_RULES) == [] <==> price >= 0.0
  {
    FailuresEmptyIff(price, TICKET_PRICE_RULES);
  }

  /** The coerced ticket count passes iff it is at least zero. */
  lemma TicketAvailableRule(available: real)
    ensures Failures(available, TICKET_AVAILABLE_RULES) == [] <==> available >= 0.0
  {
    FailuresEmptyIff(available, TICKET_AVAILABLE_RULES);
  }

  /** The start passes iff it lies strictly after the start of today: midnight today is rejected. */
  lemma StartAtRule(startAt: int, startOfToday: int)
    ensures Failures(startAt, StartAtRules(startOfToday)) == [] <==> startAt > startOfToday
    ensures startAt <= startOfToday ==> Failures(startAt, StartAtRules(startOfToday)) == [START_NOT_FUTURE]
  {
    FailuresEmptyIff(startAt, StartAtRules(startOfToday));
  }

  /**
   * The image list passes iff it has 1 to 4 entries and its FIRST entry is at most
   * 5,000,000 bytes and of an accepted type.
   */
  lemma ImageRule(fs: seq<File>)
    ensures Failures(fs, IMAGE_RULES) == [] <==>
      1 <= |fs| <= 4 && fs[0].size <= MAX_FILE_SIZE && AcceptedType(fs[0].mimeType)
  {
    ImageRulesMeaning(fs);
    ThreeRulesPass(fs, IMAGE_RULES);
  }

  /** A chain of three rules reports nothing iff all three hold. */
  lemma ThreeRulesPass<T>(x: T, rs: seq<Rule<T>>)
    requires |rs| == 3
    ensures Failures(x, rs) == [] <==> rs[0].holds(x) && rs[1].holds(x) && rs[2].holds(x)
  {
    FailuresEmptyIff(x, rs);
    assert (forall i :: 0 <= i < |rs| ==> rs[i].holds(x)) <==>
      rs[0].holds(x) && rs[1].holds(x) && rs[2].holds(x);
  }

  /** On an empty list the optional chains give `undefined`, so all three image messages are reported. */
  lemma NoImageRule()
    ensures Failures([], IMAGE_RULES) == [IMAGE_REQUIRED, IMAGE_TOO_LARGE, IMAGE_BAD_TYPE]
  {
    var rs := IMAGE_RULES;
    ImageRulesMeaning([]);
    FailuresAllBroken([], rs);
    var f := Failures([], rs);
    assert |f| == 3 && f[0] == IMAGE_REQUIRED && f[1] == IMAGE_TOO_LARGE && f[2] == IMAGE_BAD_TYPE;
  }

  lemma ImageRulesMeaning(fs: seq<File>)
    ensures |IMAGE_RULES| == 3
    ensures IMAGE_RULES[0].holds(fs) == (1 <= |fs| <= 4) && IMAGE_RULES[0].message == IMAGE_REQUIRED
    ensures IMAGE_RULES[1].holds(fs) == (|fs| >= 1 && fs[0].size <= MAX_FILE_SIZE) && IMAGE_RULES[1].message == IMAGE_TOO_LARGE
    ensures IMAGE_RULES[2].holds(fs) == (|fs| >= 1 && AcceptedType(fs[0].mimeType)) && IMAGE_RULES[2].message == IMAGE_BAD_TYPE
  {
  }

  /** Entries after the first never change what the image rules report. */
  lemma OnlyFirstImageChecked(fs: seq<File>, gs: seq<File>)
    requires |fs| == |gs| && |fs| >= 1 && fs[0] == gs[0]
    ensures Failures(fs, IMAGE_RULES) == Failures(gs, IMAGE_RULES)
  {
    var rs := IMAGE_RULES;
    assert forall i :: 0 <= i < |rs| ==> rs[i].holds(fs) == rs[i].holds(gs);
    FailuresAgree(fs, gs, rs);
  }

  lemma {:induction false} FailuresAgree<T>(x: T, y: T, rules: seq<Rule<T>>)
    requires forall i :: 0 <= i < |rules| ==> rules[i].holds(x) == rules[i].holds(y)
    ensures Failures(x, rules) == Failures(y, rules)
  {
    if rules != [] {
      assert forall i :: 1 <= i < |rules| ==> rules[i] == rules[1..][i - 1];
      FailuresAgree(x, y, rules[1..]);
    }
  }

  /** A draft is accepted iff every field rule holds; the wallet and the end time are not constrained. */
  lemma AcceptsIff(d: Draft, startOfToday: int)
    ensures Accepts(d, startOfToday) <==>
      && 1 <= Utf16Length(d.name) <= 100
      && d.ticketPrice >= 0.0
      && 1 <= Utf16Length(d.location) <= 200
      && d.startAt > startOfToday
      && 1 <= |d.image| <= 4
      && d.image[0].size <= MAX_FILE_SIZE
      && AcceptedType(d.image[0].mimeType)
      && d.ticketAvailable >= 0.0
  {
    NameRule(d.name);
    LocationRule(d.location);
    TicketPriceRule(d.ticketPrice);
    TicketAvailableRule(d.ticketAvailable);
    StartAtRule(d.startAt, startOfToday);
    ImageRule(d.image);
  }

  /** Every message a field's chain reports appears in the issue list under that field's name. */
  lemma FieldMessagesTagged(d: Draft, startOfToday: int)
    ensures forall m :: m in Failures(d.name, NAME_RULES) ==> Issue("name", m) in Issues(d, startOfToday)
    ensures forall m :: m in Failures(d.ticketPrice, TICKET_PRICE_RULES) ==>
      Issue("ticketPrice", m) in Issues(d, startOfToday)
    ensures forall m :: m in Failures(d.location, LOCATION_RULES) ==>
      Issue("location", m) in Issues(d, startOfToday)
    ensures forall m :: m in Failures(d.startAt, StartAtRules(startOfToday)) ==>
      Issue("startAt", m) in Issues(d, startOfToday)
    ensures forall m :: m in Failures(d.image, IMAGE_RULES) ==> Issue("image", m) in Issues(d, startOfToday)
    ensures forall m :: m in Failures(d.ticketAvailable, TICKET_AVAILABLE_RULES) ==>
      Issue("ticketAvailable", m) in Issues(d, startOfToday)
  {
    forall path, msgs: seq<string>, m | m in msgs
      ensures Issue(path, m) in Tagged(path, msgs)
    {
      TaggedHas(path, msgs, m);
    }
  }

  lemma TaggedHas(path: string, msgs: seq<string>, m: string)
    requires m in msgs
    ensures Issue(path, m) in Tagged(path, msgs)
  {
    var i :| 0 <= i < |msgs| && msgs[i] == m;
    assert Tagged(path, msgs)[i] == Issue(path, m);
  }

  /** An empty name is reported as "Event name is required" under "name". */
  lemma EmptyNameReported(d: Draft, startOfToday: int)
    requires d.name == []
    ensures Issue("name", NAME_REQUIRED) in Issues(d, startOfToday)
    ensures !Accepts(d, startOfToday)
  {
    NameRule(d.name);
    TaggedHas("name", Failures(d.name, NAME_RULES), NAME_REQUIRED);
  }

  /**
   * A name of 51 or more characters from outside the Basic Multilingual Plane (an emoji
   * each, say) is too long, although it has at most 100 characters.
   */
  lemma AstralNameTooLong(name: string)
    requires 51 <= |name| <= 100
    requires forall i :: 0 <= i < |name| ==> (name[i] as int) >= 0x1_0000
    ensures Failures(name, NAME_RULES) == [NAME_TOO_LONG]
  {
    NameRule(name);
  }

  /**
   * Neither the wallet (the empty string included) nor the end time affects what is reported:
   * an end before the start is accepted.
   */
  lemma WalletAndEndUnchecked(d: Draft, startOfToday: int, wallet: string, endAt: int)
    ensures Issues(d.(wallet := wallet, endAt := endAt), startOfToday) == Issues(d, startOfToday)
    ensures Accepts(d, startOfToday) ==> Accepts(d.(wallet := "", endAt := d.startAt - 1), startOfToday)
  {
  }

  /** Images two to four may be anything: replacing them keeps the verdict and the messages. */
  lemma LaterImagesUnchecked(d: Draft, startOfToday: int, rest: seq<File>)
    requires |d.image| >= 1 && |rest| == |d.image| - 1
    ensures Issues(d.(image := [d.image[0]] + rest), startOfToday) == Issues(d, startOfToday)
  {
    OnlyFirstImageChecked(d.image, [d.image[0]] + rest);
  }
}
