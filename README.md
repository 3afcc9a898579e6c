# Phone-number lookup bot: the message handler

This project models the bot's `message` handler in `index.js`. A user sends a
phone number as text. The handler does the following:

- It keeps only the digits and rejects the message when fewer than ten remain.
- It looks the number up with two HTTP services.
- It picks the name, carrier, location and country out of the two responses
  through chains of JavaScript `||` fallbacks.
- It records the name in a community ledger, the file `database.json`.
- It replies with a fixed-format text, which lists every name reported for the
  number as a small tree, and two deep-link buttons.

The modules follow the handler's stages:

- `Digits`: normalisation and the ten-digit test.
- `Json`: the JavaScript value semantics the selection relies on: truthiness,
  `?.name`, `||`, and printing in a template literal.
- `Lookup`: the four fallback chains.
- `Ledger`: the ledger update as a function, and the file as a `Store` class
  whose `RecordName` method runs the update of index.js step by step against it.
- `Lines` and `Render`: the community tree, the reply text and the buttons.
  `Lines.Split` cuts a text at its newlines. It is the reference by which the
  rendered text is read back line by line.
- `Handler`: the whole handler. `Handle` is a pure function, and
  `HandleMessage` is the same step against a `Store`.
- `Scenarios`: whole requests, end to end.

Idempotence and the absence of duplicates hold in index.js only for names that
are not objects. `includes` (index.js:103) compares objects by identity, and a
freshly parsed object is never identical to a stored one, so an object name is
appended and saved on every request (`Ledger.RecordObjectAlwaysAppends`,
`Ledger.ObjectNameRepeats`, `Handler.ObjectNameSavedEveryTime`).

The two HTTP lookups are one input, `fetch`. It maps the number to the joined
outcome of both calls: both response bodies, or `Failed` when either call
throws. The chat transport is replaced by the values the handler returns: the
reply message and the list of URLs it requests.

## Model

| member | source | states |
|---|---|---|
| Digits.Strip | index.js:60 | `text.replace(/\D/g, "")`; specified by StripDigitsOnly, StripAppend, StripChar and StripMembers below: only digits, all of them, in order |
| Digits.StripDigitsOnly | index.js:60 | the normalised text contains only '0'-'9' and is never longer than the input |
| Digits.StripAppend | index.js:60 | stripping distributes over concatenation, so the order of the digits is kept |
| Digits.StripChar | index.js:60 | a single character survives exactly when it is a decimal digit |
| Digits.StripMembers | index.js:60 | a character occurs in the result iff it is a digit that occurs in the input |
| Digits.StripKeepsDigits | index.js:60 | a text made only of digits is unchanged |
| Digits.StripIdempotent | index.js:60 | normalising twice is the same as normalising once |
| Digits.NonDigitDropped | index.js:60 | a leading non-digit character is removed |
| Digits.DigitsKept | index.js:60 | a leading run of digits is kept as it is |
| Digits.Normalize | index.js:60-65 | a key is produced iff at least ten digits remain, and the key is exactly the digits of the text |
| Digits.SpacedSpelling | index.js:60-62 | "+CC AAAAA BBBBB" normalises to CC, AAAAA and BBBBB run together, and is accepted iff that has at least ten digits |
| Digits.BareSpelling | index.js:60-62 | ten or more bare digits are their own key |
| Digits.ShortInputRejected | index.js:60-65 | a text of fewer than ten characters is always rejected |
| Json.Truthy | index.js:75-94 | JavaScript truthiness as `\|\|` tests it: `undefined`/`null` and "" are falsy, every object is truthy; FirstTruthy and the Select lemmas rely on it |
| Json.NameOf | index.js:76 | `v?.name`: an object's `name` member, `undefined` for anything else; used by SelectNameCases, SelectCarrierByShape and SelectCountryByShape |
| Json.ToText | index.js:127-133 | what `${v}` prints: a string itself, "[object Object]" for an object, "null" for `null`; TreeShape and the Scenarios lemmas read it back |
| Json.FirstTruthy | index.js:75-94 | an `a \|\| b \|\| ... \|\| "d"` chain yields the first truthy option, or the default when no option is truthy; with a non-empty default the result is truthy |
| Lookup.SelectName | index.js:75-77 | the name chain; specified by SelectNameCases and SelectNameOfString |
| Lookup.SelectCarrier | index.js:79-82 | the carrier chain; specified by SelectCarrierByShape |
| Lookup.SelectLocation | index.js:84-88 | the location chain; specified by SelectLocationInOrder |
| Lookup.SelectCountry | index.js:90-94 | the country chain; specified by SelectCountryByShape |
| Lookup.Select | index.js:75-94 | all four selected values are truthy |
| Lookup.SelectNameCases | index.js:75-77 | the name is `data.data.name` when that is truthy, and "Not Found" otherwise |
| Lookup.SelectNameOfString | index.js:75-77 | when `data.data.name` is not an object, the name is a string: the non-empty string found there, or "Not Found" |
| Lookup.SelectCarrierByShape | index.js:79-82 | carrier: an object's truthy `name`, else the member itself when truthy (an object as a whole), else "Unknown" |
| Lookup.SelectLocationInOrder | index.js:84-88 | location: `location`, then `registered_location`, then `region`, each only when truthy, else "Unknown" |
| Lookup.SelectCountryByShape | index.js:90-94 | country: an object's truthy `name`, else a truthy `country_name`, else the member itself when truthy, else "Unknown" |
| Lookup.EmptyCarrierNameFallsThrough | index.js:79-82 | an object whose name is "" is selected itself; the empty string falls through to "Unknown" |
| Lines.Join | index.js:121 | `lines.join("\n")`; SplitJoin proves that splitting gives the lines back when none holds a newline |
| Lines.Split | index.js:121 | a text has at least one line, and no line holds a newline |
| Lines.SplitSingleLine | index.js:121 | a text without newlines is one line |
| Lines.SplitAround | index.js:121 | splitting at a newline between two texts splits each side separately |
| Lines.LineAbove | index.js:121 | one line above a text adds exactly that line |
| Lines.SplitJoin | index.js:121 | `join("\n")` is undone by splitting when no line holds a newline |
| Lines.StackLines | index.js:123-139 | lines that each end in a newline are read back as themselves, followed by the lines of the rest |
| Render.CommunityNames | index.js:109-112 | the recorded list, or ["No reports"] when it is empty; specified by TreeShape and NoReportsLine |
| Render.TreeLines | index.js:114-120 | one glyph-prefixed line per name; specified by TreeShape |
| Render.CommunityText | index.js:114-121 | the joined tree; CommunityLines reads it back as the tree lines, NoReportsLine gives the empty case |
| Render.TreeShape | index.js:109-121 | there are max(1, N) tree lines for N names, in recording order; N = 0 gives the single line "└ No reports"; only the last line starts with "└ " and all earlier lines start with "├ "; each line is its glyph followed by the name |
| Render.CommunityLines | index.js:114-121 | the joined community text reads back as exactly the tree lines |
| Render.NoReportsLine | index.js:109-121 | with no names recorded, the community text is "└ No reports" |
| Render.FieldLines | index.js:123-135 | the twelve template lines above the community section; FieldsOnOneLine and ReplyLines say what they hold |
| Render.ReplyText | index.js:123-139 | the reply template; ReplyLines reads it back line by line and AshaReplyLines places each field |
| Render.FieldsOnOneLine | index.js:123-135 | no field line of the reply breaks, given that the number and the selected values do not |
| Render.ReplyLines | index.js:123-139 | the reply reads back as the twelve field lines, the community lines, an empty line, the footer and a final empty line |
| Render.Buttons | index.js:141-156 | the WhatsApp and Telegram deep links; ButtonsCarryNumber and ButtonsInjective say the number reads back from each |
| Render.ButtonsCarryNumber | index.js:141-156 | the number can be read back unchanged from the WhatsApp link and from the Telegram link |
| Render.ButtonsInjective | index.js:141-156 | different numbers get different buttons |
| Ledger.Same | index.js:103 | SameValueZero as `includes` uses it: strings and `null` by value, an object never matches a freshly parsed entry; RecordObjectAlwaysAppends and ObjectNameRepeats state the consequence |
| Ledger.Includes | index.js:103 | `names.includes(name)`; RecordAppendedIff ties the push to it |
| Ledger.Entries | index.js:98-99 | the number's list, or the `[]` created for a missing key; Record states how the new list extends it |
| Ledger.Record | index.js:98-107 | after the update the number has a list; a name other than "Not Found" is in it; the old list is a prefix of the new one, which is at most one longer; the keys gain only the number; every other list is unchanged |
| Ledger.RecordAppendedIff | index.js:101-107 | the name is pushed (so the file is saved) iff it is not "Not Found" and not already included; pushing is exactly when the list changes, and it changes by that one name |
| Ledger.RecordKeepsDistinct | index.js:98-107 | a list with no two entries that `includes` (index.js:103) matches keeps that property; an object name never matches and is appended on every request |
| Ledger.RecordIdempotent | index.js:101-107 | recording the same string name again changes nothing and saves nothing |
| Ledger.RecordObjectAlwaysAppends | index.js:101-105 | an object name is never `includes`d, so it is pushed every time |
| Ledger.PersistKeepsConsistent | index.js:96-107 | load, update and conditional save keep every stored list non-empty and free of two entries that `includes` (index.js:103) matches; an object name never matches and is appended on every request |
| Ledger.ObjectNameRepeats | index.js:101-106 | the same object name recorded twice under a new number is stored twice, and the list still counts as distinct in the `includes` sense |
| Ledger.Loaded | index.js:29-34 | what `loadDB` returns: `{}` for a missing file, a throw (None) for text that does not parse; Store.Load is proved equal to it |
| Ledger.AfterLoad | index.js:30-31 | the file after `loadDB`: a missing file now holds `{}`; Store.Load is proved equal to it |
| Ledger.Persisted | index.js:106 | the file is written only when a name was pushed; Store.RecordName is proved equal to it, and PersistKeepsConsistent keeps the invariant |
| Ledger.Store.Load | index.js:29-34 | returns the parsed ledger, or nothing when the text does not parse; a missing file is created holding `{}` |
| Ledger.Store.Save | index.js:36-38 | the file holds the ledger, and one more save is counted |
| Ledger.Store.RecordName | index.js:96-109 | the file and the save count after the step are those of `Record`, and the returned list is the number's list after the update; a file that does not parse is left alone |
| Handler.Handle | index.js:54-166 | the whole handler on values; HandleMessage is proved equal to it and the Handler lemmas below state its properties |
| Handler.Ignored | index.js:56-57 | no text, empty text, or text starting with "/start": no reply; TypedIsKey and ShortNumber show non-commands getting through |
| Handler.InfoApi | index.js:23-26 | the intelligence URL prefix, with a missing API key printed as "undefined" |
| Handler.Requests | index.js:71-72 | the two lookup URLs for the number; ValidNumberIsLookedUp says both are requested for exactly the stripped digits |
| Handler.HandleMessage | index.js:54-166 | the reply, the requests, the new file and the number of saves are those of `Handle`; the ledger invariant is kept |
| Handler.InvalidNumberShortCircuits | index.js:60-65 | fewer than ten digits: "❌ Invalid number", no request, the file untouched, and the outcome does not depend on the lookups |
| Handler.ValidNumberIsLookedUp | index.js:60-73 | ten or more digits: both URLs are requested for exactly those digits, and a reply is sent |
| Handler.FailedLookupLeavesLedger | index.js:67-164 | a failed lookup gives "❌ Lookup failed" and leaves the ledger as it was |
| Handler.CorruptFileIsNeverWritten | index.js:96-162 | a ledger file that does not parse is never overwritten, and no reply with buttons is sent |
| Handler.SavedExactlyWhenNew | index.js:101-107 | the file is saved iff the selected name is new and not "Not Found", and then it is the old ledger with the name appended to the number's list |
| Handler.ObjectNameSavedEveryTime | index.js:101-107 | a selected name that is an object is appended and saved on every request |
| Handler.ReplyAfterLookup | index.js:109-156 | the reply is built from the number, the selection and the number's list after the update, with the two links |
| Handler.HandleKeepsConsistent | index.js:96-107 | handling any message keeps every stored list non-empty and free of two entries that `includes` matches |
| Handler.RepeatIsIdempotent | index.js:96-156 | sending the same message twice with a string name saves nothing the second time, keeps the file and gives the same reply |
| Scenarios.TypedIsKey | index.js:56-62 | "+CC AAAAA BBBBB" is not a command and normalises to its digits |
| Scenarios.AshaSelected | index.js:75-94 | a sample pair of responses selects "Asha", "Jio", "Delhi" and "India" |
| Scenarios.AshaCommunity | index.js:109-121 | a single name is drawn as "└ " followed by that name |
| Scenarios.AshaReplyLines | index.js:123-139 | the sample reply has 16 lines, and the number, country, name, carrier, location and community lines are where the template puts them |
| Scenarios.FirstReport | index.js:96-107 | the first report of a number saves a ledger that maps it to the one name "Asha" |
| Scenarios.FirstReply | index.js:109-156 | that first report replies with "Asha" as the one community entry and with both links |
| Scenarios.RepeatedReport | index.js:101-156 | the same report again saves nothing, keeps the file and gives the same reply |
| Scenarios.ShortNumber | index.js:62-65 | "12345" gets the invalid-number reply and touches nothing |
| Scenarios.LookupFails | index.js:158-163 | a failed lookup of a valid number gives the failure reply and touches nothing |

## Left out

- The Telegram transport (the bot object, polling, `sendMessage`, the `/start` greeting at index.js:41-51): the reply is returned as a value instead. The handler's own `/start` test (index.js:57) is modelled.
- The HTTP calls and their `Promise.all` join (index.js:69-73) are network I/O. They are the input `fetch`, and either call failing is its `Failed` outcome.
- How the response bodies are parsed: a field is modelled as absent, a string or an object with a `name`. JSON numbers, booleans and arrays in those fields are not modelled.
- The JSON reading and writing of `database.json` (index.js:29-38): a file is missing, holds text that does not parse, or holds a ledger map. Each `saveDB` is one counted save.
- A write failure in `saveDB` or `loadDB` is not modelled. In index.js it throws inside the `try` (index.js:67-164), and the user gets "❌ Lookup failed".
- A `database.json` holding JSON other than an object (null, an array, a number) is not modelled. In index.js `null` makes `db[number]` (index.js:98) throw, so the user gets "❌ Lookup failed".
- An existing non-list value for a key in `database.json` is not modelled: the ledger maps each key to a list of names.
- `console.log` of the error (index.js:160) is output only.
- The Express health-check server, `dotenv` and the port (index.js:1-13, 169-175) are plumbing. The API key is a `Config` input, and a missing key is printed as "undefined", as string concatenation does.
- The lost-update race between overlapping requests is out of scope: the model handles one message at a time.
- String lengths count `char`s, not JavaScript's UTF-16 code units. The only length index.js takes is `number.length` (index.js:62), of a digit string, where both counts agree.
- Json.ToText: an object with its own `toString` member makes `${}` throw a TypeError, so index.js replies "❌ Lookup failed" (index.js:158-163), after any save at index.js:106; the model prints "[object Object]" for every object and sends the full reply.
- Render.CommunityLines: the line-by-line reading requires that no recorded name holds a newline of its own. A name with a newline prints across several lines; `TreeShape` still describes the tree before it is joined.
- Render.ReplyLines: requires the number and the selected values to be on one line, for the same reason.
- Scenarios.FirstReport, Scenarios.FirstReply, Scenarios.RepeatedReport, Scenarios.LookupFails: these cover messages typed as "+CC AAAAA BBBBB"; other spellings are covered by the `Handler` lemmas.
