/**
 * The reply: the community list drawn as a tree (index.js:109-121), the
 * fixed-format text (index.js:123-139) and the two deep links
 * (index.js:141-156), plus the two short replies for the error exits
 * (index.js:63, 162).
 */
module Render {

  import opened Json
  import opened Lines
  import opened Lookup

  const NoReports := "No reports"
  const Branch := "├ "
  const LastBranch := "└ "

  const InvalidNumberText := "❌ Invalid number"
  const LookupFailedText := "❌ Lookup failed"

  const Header := "╭─── Truecaller Lookup ───╮"
  const Footer := "╰────────────────────────╯"

  /** A labelled inline-keyboard button that opens a URL. */
  datatype Button = Button(caption: string, url: string)

  /** What the bot sends back: a text and the buttons under it. */
  datatype Message = Message(text: string, buttons: seq<Button>)

  const InvalidNumber := Message(InvalidNumberText, [])
  const LookupFailed := Message(LookupFailedText, [])

  /** The names shown: the recorded ones, or one placeholder when there are
      none (index.js:109-112). */
  function CommunityNames(recorded: seq<Json>): seq<Json> {
    if |recorded| == 0 then [Str(NoReports)] else recorded
  }

  /** One line per name, the last drawn as the end of the branch
      (index.js:114-120). */
  function TreeLines(names: seq<Json>): seq<string> {
    seq(|names|, i requires 0 <= i < |names| =>
      (if i == |names| - 1 then LastBranch else Branch) + ToText(names[i]))
  }

  /** The community section of the reply (index.js:114-121). */
  function CommunityText(recorded: seq<Json>): string {
    Join(TreeLines(CommunityNames(recorded)))
  }

  function Max(a: int, b: int): int {
    if a < b then b else a
  }

  predicate StartsWith(s: string, prefix: string) {
    |prefix| <= |s| && s[..|prefix|] == prefix
  }

  /** The tree before it is joined: max(1, N) lines for N recorded names,
      in recording order; only the last line starts with the end glyph,
      every other one with the branch glyph, and each line is its glyph
      followed by the name. */
  lemma TreeShape(recorded: seq<Json>)
    ensures var lines := TreeLines(CommunityNames(recorded));
            && |lines| == Max(1, |recorded|)
            && (|recorded| == 0 ==> lines == [LastBranch + NoReports])
            && (forall k :: 0 <= k < |lines| ==> (StartsWith(lines[k], LastBranch) <==> k == |lines| - 1))
            && (forall k :: 0 <= k < |lines| - 1 ==> StartsWith(lines[k], Branch))
            && (forall k :: 0 <= k < |recorded| ==> lines[k][2..] == ToText(recorded[k]))
  {
    var names := CommunityNames(recorded);
    var lines := TreeLines(names);
    forall k | 0 <= k < |lines|
      ensures StartsWith(lines[k], LastBranch) <==> k == |lines| - 1
      ensures k < |lines| - 1 ==> StartsWith(lines[k], Branch)
    {
      var glyph := if k == |names| - 1 then LastBranch else Branch;
      assert lines[k] == glyph + ToText(names[k]);
      assert lines[k][..2] == glyph;
    }
    forall k | 0 <= k < |recorded|
      ensures lines[k][2..] == ToText(recorded[k])
    {
      var glyph := if k == |names| - 1 then LastBranch else Branch;
      assert lines[k] == glyph + ToText(names[k]);
    }
  }

  /** Names that print on one line: every name except a string holding a
      line break. */
  predicate PrintsOnOneLine(names: seq<Json>) {
    forall k :: 0 <= k < |names| ==> SingleLine(ToText(names[k]))
  }

  /** Read back line by line, the community text is exactly the tree of
      `TreeShape` (when no name holds a line break of its own). */
  lemma CommunityLines(recorded: seq<Json>)
    requires PrintsOnOneLine(recorded)
    ensures Split(CommunityText(recorded)) == TreeLines(CommunityNames(recorded))
  {
    var names := CommunityNames(recorded);
    var lines := TreeLines(names);
    forall k | 0 <= k < |lines| ensures SingleLine(lines[k]) {
      var glyph := if k == |names| - 1 then LastBranch else Branch;
      assert lines[k] == glyph + ToText(names[k]);
      assert SingleLine(ToText(names[k]));
    }
    SplitJoin(lines);
  }

  /** With no recorded names the community section is the single line
      "└ No reports". */
  lemma NoReportsLine()
    ensures CommunityText([]) == LastBranch + NoReports
  {
  }

  /** The lines of the reply above the community section (index.js:124-135). */
  function FieldLines(number: string, sel: Selection): seq<string> {
    ["", Header, "",
     "📱 Number: +" + number,
     "🌍 Country: " + ToText(sel.country),
     "",
     "🔎 TrueCaller Says:",
     "Name: " + ToText(sel.name),
     "Carrier: " + ToText(sel.carrier),
     "Location: " + ToText(sel.location),
     "",
     "🔎 Community Reports:"]
  }

  /** The message text of a successful lookup (index.js:123-139): the
      template literal is its field lines, the community section, an empty
      line and the footer, each followed by a line break. */
  function ReplyText(number: string, sel: Selection, community: string): string {
    Stack(FieldLines(number, sel), Above(community, Above("", Above(Footer, ""))))
  }

  predicate SelectionOnOneLine(sel: Selection) {
    && SingleLine(ToText(sel.name)) && SingleLine(ToText(sel.carrier))
    && SingleLine(ToText(sel.location)) && SingleLine(ToText(sel.country))
  }

  lemma JoinedOnOneLine(a: string, b: string)
    requires SingleLine(a) && SingleLine(b)
    ensures SingleLine(a + b)
  {
  }

  /** No field line breaks, given that the number and the selected values
      do not. */
  lemma FieldsOnOneLine(number: string, sel: Selection)
    requires SingleLine(number) && SelectionOnOneLine(sel)
    ensures forall k :: 0 <= k < |FieldLines(number, sel)| ==> SingleLine(FieldLines(number, sel)[k])
  {
    JoinedOnOneLine("📱 Number: +", number);
    JoinedOnOneLine("🌍 Country: ", ToText(sel.country));
    JoinedOnOneLine("Name: ", ToText(sel.name));
    JoinedOnOneLine("Carrier: ", ToText(sel.carrier));
    JoinedOnOneLine("Location: ", ToText(sel.location));
  }

  /** Read back line by line, the reply is the twelve field lines, the
      lines of the community section, an empty line, the footer and the
      empty line the template ends with. */
  lemma ReplyLines(number: string, sel: Selection, community: string)
    requires SingleLine(number) && SelectionOnOneLine(sel)
    ensures Split(ReplyText(number, sel, community))
         == FieldLines(number, sel) + Split(community) + ["", Footer, ""]
  {
    var fields := FieldLines(number, sel);
    FieldsOnOneLine(number, sel);
    LineAbove(Footer, "");
    LineAbove("", Above(Footer, ""));
    SplitAround(community, Above("", Above(Footer, "")));
    StackLines(fields, Above(community, Above("", Above(Footer, ""))));
  }

  const WhatsAppPrefix := "https://wa.me/"
  const TelegramPrefix := "https://t.me/+"

  /** The two deep-link buttons under the reply (index.js:141-156). */
  function Buttons(number: string): seq<Button> {
    [Button("💬 WhatsApp", WhatsAppPrefix + number),
     Button("📨 Telegram", TelegramPrefix + number)]
  }

  /** The number a deep link was built from, read back from its URL. */
  function LinkedNumber(url: string, prefix: string): string {
    if StartsWith(url, prefix) then url[|prefix|..] else ""
  }

  /** Both links carry the number unchanged, so the number can be read back
      from either of them, and distinct numbers get distinct links. */
  lemma ButtonsCarryNumber(number: string)
    ensures var b := Buttons(number);
            && LinkedNumber(b[0].url, WhatsAppPrefix) == number
            && LinkedNumber(b[1].url, TelegramPrefix) == number
  {
    var b := Buttons(number);
    assert b[0].url[..|WhatsAppPrefix|] == WhatsAppPrefix;
    assert b[1].url[..|TelegramPrefix|] == TelegramPrefix;
  }

  lemma ButtonsInjective(a: string, b: string)
    requires Buttons(a) == Buttons(b)
    ensures a == b
  {
    ButtonsCarryNumber(a);
    ButtonsCarryNumber(b);
  }
}
