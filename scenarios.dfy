/**
 * Whole requests, end to end: the first report for a number, the same
 * report again, a number that is too short, and a lookup that fails.
 */
module Scenarios {

  import opened Wrappers
  import opened Json
  import opened Digits
  import opened Lookup
  import opened Lines
  import opened Render
  import opened Ledger
  import opened Handler

  /** A number typed as "+CC AAAAA BBBBB" with at least ten digits in
      all, such as "+91 98765 43210". */
  predicate Typeable(cc: string, a: string, b: string) {
    AllDigits(cc) && AllDigits(a) && AllDigits(b) && |cc| + |a| + |b| >= MinDigits
  }

  /** Such a message is not a command and normalises to its digits. */
  lemma TypedIsKey(cc: string, a: string, b: string)
    requires Typeable(cc, a, b)
    ensures !Ignored(Some(Spelled(cc, a, b)))
    ensures Normalize(Spelled(cc, a, b)) == Some(cc + (a + b))
  {
    SpacedSpelling(cc, a, b);
    assert Spelled(cc, a, b)[0] == '+';
  }

  /** A name lookup that finds "Asha", and an intelligence lookup with the
      carrier and country as objects and the location under `region`. */
  const Asha := Fetched(
    NameResponse(Obj(Str("Asha"))),
    InfoResponse(Obj(Str("Jio")), Absent, Absent, Str("Delhi"), Obj(Str("India")), Absent))

  const AshaSelection := Selection(Str("Asha"), Str("Jio"), Str("Delhi"), Str("India"))

  lemma AshaSelected()
    ensures Select(Asha.name, Asha.info) == AshaSelection
  {
    SelectLocationInOrder(Asha.info);
    SelectCountryByShape(Asha.info);
  }

  /** "Asha" alone is drawn as the end of the branch. */
  lemma AshaCommunity()
    ensures CommunityText([Str("Asha")]) == LastBranch + "Asha"
  {
    var lines := TreeLines(CommunityNames([Str("Asha")]));
    assert |lines| == 1 && lines[0] == LastBranch + "Asha";
  }

  /** A string of digits holds no line break. */
  lemma DigitsOnOneLine(number: string)
    requires AllDigits(number)
    ensures SingleLine(number)
  {
  }

  /** The reply for a number with "Asha" as its only community report. */
  lemma AshaReplyLines(number: string)
    requires AllDigits(number)
    ensures var lines := Split(ReplyText(number, AshaSelection, LastBranch + "Asha"));
            && |lines| == 16
            && lines[3] == "📱 Number: +" + number
            && lines[4] == "🌍 Country: " + "India"
            && lines[7] == "Name: " + "Asha"
            && lines[8] == "Carrier: " + "Jio"
            && lines[9] == "Location: " + "Delhi"
            && lines[12] == LastBranch + "Asha"
  {
    var community := LastBranch + "Asha";
    assert SingleLine(community);
    SplitSingleLine(community);
    DigitsOnOneLine(number);
    ReplyLines(number, AshaSelection, community);
  }

  /** The first lookup of a number records "Asha" and saves. */
  lemma FirstReport(config: Config, cc: string, a: string, b: string, fetch: string -> Fetched, db: Db)
    requires Typeable(cc, a, b)
    requires fetch(cc + (a + b)) == Asha
    requires cc + (a + b) !in db
    ensures var key := cc + (a + b);
            var s := Handle(config, Some(Spelled(cc, a, b)), fetch, Stored(db));
            && s.saved
            && s.file == Stored(db[key := [Str("Asha")]])
            && s.requests == Requests(config, key)
  {
    var key := cc + (a + b);
    var text := Some(Spelled(cc, a, b));
    TypedIsKey(cc, a, b);
    AshaSelected();
    ValidNumberIsLookedUp(config, text, fetch, Stored(db));
    SavedExactlyWhenNew(config, text, fetch, Stored(db));
    assert Entries(db, key) == [];
    assert !Includes([], Str("Asha"));
    assert [] + [Str("Asha")] == [Str("Asha")];
  }

  /** The reply to that first lookup: the fields of `AshaReplyLines`,
      "Asha" as the one community report, and the two deep links. */
  lemma FirstReply(config: Config, cc: string, a: string, b: string, fetch: string -> Fetched, db: Db)
    requires Typeable(cc, a, b)
    requires fetch(cc + (a + b)) == Asha
    requires cc + (a + b) !in db
    ensures var key := cc + (a + b);
            Handle(config, Some(Spelled(cc, a, b)), fetch, Stored(db)).reply
              == Some(Message(ReplyText(key, AshaSelection, LastBranch + "Asha"), Buttons(key)))
  {
    var key := cc + (a + b);
    var text := Some(Spelled(cc, a, b));
    TypedIsKey(cc, a, b);
    AshaSelected();
    AshaCommunity();
    ReplyAfterLookup(config, text, fetch, Stored(db));
    var u := Record(db, key, Str("Asha"));
    assert Entries(db, key) == [];
    assert !Includes([], Str("Asha"));
    assert [] + [Str("Asha")] == [Str("Asha")];
    assert u.db[key] == [Str("Asha")];
  }

  /** The same lookup again: nothing is saved, the file is as it was, and
      the community section still has exactly the one entry. */
  lemma RepeatedReport(config: Config, cc: string, a: string, b: string, fetch: string -> Fetched, db: Db)
    requires Typeable(cc, a, b)
    requires fetch(cc + (a + b)) == Asha
    requires cc + (a + b) in db && db[cc + (a + b)] == [Str("Asha")]
    ensures var key := cc + (a + b);
            var s := Handle(config, Some(Spelled(cc, a, b)), fetch, Stored(db));
            && !s.saved
            && s.file == Stored(db)
            && s.reply == Some(Message(ReplyText(key, AshaSelection, LastBranch + "Asha"), Buttons(key)))
  {
    var key := cc + (a + b);
    var text := Some(Spelled(cc, a, b));
    TypedIsKey(cc, a, b);
    AshaSelected();
    AshaCommunity();
    SavedExactlyWhenNew(config, text, fetch, Stored(db));
    ReplyAfterLookup(config, text, fetch, Stored(db));
    assert Same(db[key][0], Str("Asha"));
    RecordAppendedIff(db, key, Str("Asha"));
    RecordIdempotent(map[], key, Str("Asha"));
    assert db[key := db[key]] == db;
  }

  /** Five digits: the invalid-number reply, no request, no ledger change. */
  lemma ShortNumber(config: Config, fetch: string -> Fetched, file: File)
    ensures Handle(config, Some("12345"), fetch, file) == Step(Some(InvalidNumber), [], file, false)
  {
    ShortInputRejected("12345");
    assert !StartsWith("12345", StartCommand) by {
      assert "12345"[0] != StartCommand[0];
    }
  }

  /** The lookup fails: the generic failure reply, and the ledger is
      untouched. */
  lemma LookupFails(config: Config, cc: string, a: string, b: string, fetch: string -> Fetched, file: File)
    requires Typeable(cc, a, b)
    requires fetch(cc + (a + b)) == Failed
    ensures Handle(config, Some(Spelled(cc, a, b)), fetch, file)
         == Step(Some(LookupFailed), Requests(config, cc + (a + b)), file, false)
  {
    TypedIsKey(cc, a, b);
  }
}
