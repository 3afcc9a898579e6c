/**
 * The `message` handler (index.js:54-166): ignore empty and `/start`
 * messages, normalise and validate the number, look it up, record the
 * name in the community ledger, and build the reply.
 *
 * Both HTTP lookups are one input, `fetch`, that maps the number to the
 * joined outcome of the two calls; the chat transport is replaced by the
 * returned message and the list of URLs the handler requests.
 */
module Handler {

  import opened Wrappers
  import opened Json
  import opened Digits
  import opened Lookup
  import opened Lines
  import opened Render
  import opened Ledger

  const StartCommand := "/start"
  const NameApi := "https://abbas-apis.vercel.app/api/num-name?number="

  /** Settings read from the environment at start-up. */
  datatype Config = Config(apiKey: Option<string>)

  /** `INFO_API` (index.js:23-26); string concatenation turns a missing
      `API_KEY` into the text "undefined". */
  function InfoApi(config: Config): string {
    "https://phoneintelligence.abstractapi.com/v1/?api_key="
    + (if config.apiKey.Some? then config.apiKey.value else "undefined")
    + "&phone="
  }

  /** The joined outcome of the two lookups (index.js:69-73): both bodies, or
      a failure of either call. */
  datatype Fetched = Failed | Fetched(name: NameResponse, info: InfoResponse)

  /** The URLs of the two lookups for a number. */
  function Requests(config: Config, number: string): seq<string> {
    [NameApi + number, InfoApi(config) + number]
  }

  /** The outcome of one message: what is sent back (None when the handler
      returns without replying), the URLs requested, the file afterwards,
      and whether `saveDB` ran. */
  datatype Step = Step(reply: Option<Message>, requests: seq<string>, file: File, saved: bool)

  /** Messages the handler returns on without a word (index.js:56-57). */
  predicate Ignored(text: Option<string>) {
    text.None? || text.value == "" || StartsWith(text.value, StartCommand)
  }

  /** The whole handler, as a function of the message, the lookups and the
      file it starts from. */
  function Handle(config: Config, text: Option<string>, fetch: string -> Fetched, file: File): Step {
    if Ignored(text) then Step(None, [], file, false)
    else
      match Normalize(text.value)
      case None => Step(Some(InvalidNumber), [], file, false)
      case Some(number) =>
        var requests := Requests(config, number);
        match fetch(number)
        case Failed => Step(Some(LookupFailed), requests, file, false)
        case Fetched(nameRes, info) =>
          var sel := Select(nameRes, info);
          match Loaded(file)
          case None => Step(Some(LookupFailed), requests, file, false)
          case Some(db) =>
            var u := Record(db, number, sel.name);
            var reply := Message(ReplyText(number, sel, CommunityText(u.db[number])), Buttons(number));
            Step(Some(reply), requests, Persisted(AfterLoad(file), u), u.appended)
  }

  /** The handler as index.js runs it, step by step, against the store. */
  method HandleMessage(store: Store, config: Config, text: Option<string>, fetch: string -> Fetched)
    returns (reply: Option<Message>, requests: seq<string>)
    modifies store
    ensures var s := Handle(config, text, fetch, old(store.file));
            && reply == s.reply && requests == s.requests && store.file == s.file
            && store.saves == old(store.saves) + (if s.saved then 1 else 0)
    ensures old(store.Valid()) ==> store.Valid()
  {
    if text.None? || text.value == "" {
      return None, [];
    }
    if StartsWith(text.value, StartCommand) {
      return None, [];
    }
    var number := Strip(text.value);
    if |number| < MinDigits {
      return Some(InvalidNumber), [];
    }
    requests := Requests(config, number);
    var fetched := fetch(number);
    if fetched.Failed? {
      return Some(LookupFailed), requests;
    }
    var sel := Select(fetched.name, fetched.info);
    var names := store.RecordName(number, sel.name);
    if names.None? {
      return Some(LookupFailed), requests;
    }
    var community := CommunityText(names.value);
    reply := Some(Message(ReplyText(number, sel, community), Buttons(number)));
  }

  /** A message that normalises to fewer than ten digits gets the
      "Invalid number" reply; no lookup is made, the ledger is neither read
      nor written, and the outcome does not depend on what the lookups
      would have returned. */
  lemma InvalidNumberShortCircuits(config: Config, text: Option<string>, fetch: string -> Fetched,
                                   other: string -> Fetched, file: File)
    requires !Ignored(text) && |Strip(text.value)| < MinDigits
    ensures Handle(config, text, fetch, file) == Step(Some(InvalidNumber), [], file, false)
    ensures Handle(config, text, fetch, file) == Handle(config, text, other, file)
  {
  }

  /** A message with at least ten digits is looked up under exactly those
      digits, with both requests issued. */
  lemma ValidNumberIsLookedUp(config: Config, text: Option<string>, fetch: string -> Fetched, file: File)
    requires !Ignored(text) && |Strip(text.value)| >= MinDigits
    ensures Handle(config, text, fetch, file).requests == Requests(config, Strip(text.value))
    ensures Handle(config, text, fetch, file).reply.Some?
  {
  }

  /** A failed lookup (either call) gives the generic failure reply and
      leaves the ledger alone. */
  lemma FailedLookupLeavesLedger(config: Config, text: Option<string>, fetch: string -> Fetched, file: File)
    requires !Ignored(text) && Normalize(text.value).Some?
    requires fetch(Strip(text.value)).Failed?
    ensures var s := Handle(config, text, fetch, file);
            s.reply == Some(LookupFailed) && s.file == file && !s.saved
  {
  }

  /** A ledger file that does not parse makes every looked-up request fail
      and is never overwritten. */
  lemma CorruptFileIsNeverWritten(config: Config, text: Option<string>, fetch: string -> Fetched)
    ensures var s := Handle(config, text, fetch, Corrupt);
            s.file == Corrupt && !s.saved && (s.reply.Some? ==> s.reply.value.buttons == [])
  {
  }

  /** The file is written exactly when the selected name is new for the
      number, and then the number's list gains exactly that name. */
  lemma SavedExactlyWhenNew(config: Config, text: Option<string>, fetch: string -> Fetched, file: File)
    requires !Ignored(text) && Normalize(text.value).Some?
    requires fetch(Strip(text.value)).Fetched? && Loaded(file).Some?
    ensures var number := Strip(text.value);
            var f := fetch(number);
            var name := SelectName(f.name);
            var before := Entries(Loaded(file).value, number);
            var s := Handle(config, text, fetch, file);
            && (s.saved <==> name != Str(NotFound) && !Includes(before, name))
            && (s.saved ==> s.file == Stored(Loaded(file).value[number := before + [name]]))
            && (!s.saved ==> s.file == AfterLoad(file))
  {
    var number := Strip(text.value);
    var f := fetch(number);
    var db := Loaded(file).value;
    var name := Select(f.name, f.info).name;
    RecordAppendedIff(db, number, name);
    var u := Record(db, number, name);
    if u.appended {
      assert u.db == db[number := Entries(db, number) + [name]];
    }
  }

  /** A name that is an object is never found by `includes`, so every
      request that selects one saves it once more, even when the same
      request was made before. */
  lemma ObjectNameSavedEveryTime(config: Config, text: Option<string>, fetch: string -> Fetched, file: File)
    requires !Ignored(text) && Normalize(text.value).Some?
    requires fetch(Strip(text.value)).Fetched? && Loaded(file).Some?
    requires SelectName(fetch(Strip(text.value)).name).Obj?
    ensures var number := Strip(text.value);
            var name := SelectName(fetch(number).name);
            var db := Loaded(file).value;
            var s := Handle(config, text, fetch, file);
            && s.saved
            && s.file == Stored(db[number := Entries(db, number) + [name]])
  {
    var number := Strip(text.value);
    var name := SelectName(fetch(number).name);
    RecordObjectAlwaysAppends(Loaded(file).value, number, name);
    SavedExactlyWhenNew(config, text, fetch, file);
  }

  /** The reply to a looked-up number: the reply text over the selected
      fields and the number's list after the update, and the two links. */
  lemma ReplyAfterLookup(config: Config, text: Option<string>, fetch: string -> Fetched, file: File)
    requires !Ignored(text) && Normalize(text.value).Some?
    requires fetch(Strip(text.value)).Fetched? && Loaded(file).Some?
    ensures var number := Strip(text.value);
            var f := fetch(number);
            var sel := Select(f.name, f.info);
            var u := Record(Loaded(file).value, number, sel.name);
            Handle(config, text, fetch, file).reply
              == Some(Message(ReplyText(number, sel, CommunityText(u.db[number])), Buttons(number)))
  {
  }

  /** Handling keeps a consistent ledger file consistent. */
  lemma HandleKeepsConsistent(config: Config, text: Option<string>, fetch: string -> Fetched, file: File)
    requires Consistent(file)
    ensures Consistent(Handle(config, text, fetch, file).file)
  {
    if !Ignored(text) && Normalize(text.value).Some? {
      var number := Strip(text.value);
      var f := fetch(number);
      if f.Fetched? && Loaded(file).Some? {
        PersistKeepsConsistent(file, number, Select(f.name, f.info).name);
      }
    }
  }

  /** Sending the same message twice with the same (string) name: the second
      time nothing is saved, the file stays as the first left it and the
      reply is the same. */
  lemma RepeatIsIdempotent(config: Config, text: Option<string>, fetch: string -> Fetched, file: File)
    requires !Ignored(text) && Normalize(text.value).Some?
    requires var f := fetch(Strip(text.value)); f.Fetched? ==> !SelectName(f.name).Obj?
    ensures var first := Handle(config, text, fetch, file);
            var second := Handle(config, text, fetch, first.file);
            && !second.saved && second.file == first.file && second.reply == first.reply
  {
    var number := Strip(text.value);
    var f := fetch(number);
    if f.Fetched? && Loaded(file).Some? {
      var sel := Select(f.name, f.info);
      var db := Loaded(file).value;
      var u := Record(db, number, sel.name);
      var first := Handle(config, text, fetch, file);
      if u.appended {
        assert first.file == Stored(u.db);
        RecordIdempotent(db, number, sel.name);
      } else {
        assert first.file == AfterLoad(file);
        assert Loaded(first.file) == Loaded(file);
      }
    }
  }
}
