/**
 Pane discovery (daemon/internal/tmux/tmux.go). Running tmux is outside the model; its listing is a
 text, and the text is parsed as `ParsePanes` does.
 */
module Tmux {
  import opened Wrappers
  import opened Text

  datatype PaneInfo = PaneInfo(
    id: string,
    sessionId: string,
    sessionName: string,
    windowId: string,
    activeInWindow: bool,
    windowActive: bool)

  /** White space in the sense of Go's `strings.TrimSpace`. */
  predicate GoSpace(c: char) {
    || '\t' <= c <= '\r' || c == ' ' || c == '\U{0085}' || c == '\U{00A0}' || c == '\U{1680}'
    || '\U{2000}' <= c <= '\U{200A}' || c == '\U{2028}' || c == '\U{2029}'
    || c == '\U{202F}' || c == '\U{205F}' || c == '\U{3000}'
  }

  predicate Blank(line: string) {
    forall c :: c in line ==> GoSpace(c)
  }

  /** One line of the listing; blank lines and lines with fewer than six fields are no pane. */
  function ParseLine(raw: string): Option<PaneInfo> {
    var line := TrimCarriageReturns(raw);
    if Blank(line) then None
    else
      var f := Split(line, '\t');
      if |f| < 6 then None
      else Some(PaneInfo(f[0], f[1], f[2], f[3], f[4] == "1", f[5] == "1"))
  }

  function ParseLines(lines: seq<string>): seq<PaneInfo> {
    if lines == [] then []
    else
      var last := ParseLine(lines[|lines| - 1]);
      ParseLines(lines[..|lines| - 1]) + if last.Some? then [last.value] else []
  }

  method ParsePanes(out: string) returns (panes: seq<PaneInfo>)
    ensures panes == ParseLines(Split(out, '\n'))
  {
    panes := [];
    var lines := Split(out, '\n');
    for i := 0 to |lines|
      invariant panes == ParseLines(lines[..i])
    {
      assert lines[..i + 1][..i] == lines[..i];
      var line := TrimCarriageReturns(lines[i]);
      if Blank(line) {
        continue;
      }
      var f := Split(line, '\t');
      if |f| < 6 {
        continue;
      }
      panes := panes + [PaneInfo(f[0], f[1], f[2], f[3], f[4] == "1", f[5] == "1")];
    }
    assert lines[..|lines|] == lines;
  }

  /** `PaneExists`: whether the pane is in the listing; without a listing it counts as gone. */
  method PaneExists(listing: Option<seq<PaneInfo>>, paneId: string) returns (found: bool)
    ensures found <==> listing.Some? && exists p :: p in listing.value && p.id == paneId
  {
    if listing.None? {
      return false;
    }
    var panes := listing.value;
    for i := 0 to |panes|
      invariant forall k :: 0 <= k < i ==> panes[k].id != paneId
    {
      if panes[i].id == paneId {
        return true;
      }
    }
    return false;
  }

  /** The tmux commands `FocusPane` issues. */
  datatype Command = SelectWindow(windowId: string) | SelectPane(paneId: string)

  /**
   `FocusPane`: the window of the first pane with that id is selected before the pane itself; a
   failing `select-window` stops there; an unknown pane or a failing listing issues nothing.
   */
  method FocusPane(listing: Option<seq<PaneInfo>>, paneId: string, succeeds: Command -> bool)
    returns (issued: seq<Command>, ok: bool)
    ensures listing.None? || !(exists p :: p in listing.value && p.id == paneId) ==> issued == [] && !ok
    ensures listing.Some? && (exists p :: p in listing.value && p.id == paneId) ==>
              exists i :: 0 <= i < |listing.value| && listing.value[i].id == paneId
                && (forall k :: 0 <= k < i ==> listing.value[k].id != paneId)
                && issued <= [SelectWindow(listing.value[i].windowId), SelectPane(paneId)]
                && issued != []
                && (|issued| == 1 <==> !succeeds(SelectWindow(listing.value[i].windowId)))
    ensures ok <==> |issued| == 2 && succeeds(SelectPane(paneId))
  {
    if listing.None? {
      return [], false;
    }
    var panes := listing.value;
    for i := 0 to |panes|
      invariant forall k :: 0 <= k < i ==> panes[k].id != paneId
    {
      if panes[i].id != paneId {
        continue;
      }
      issued := [SelectWindow(panes[i].windowId)];
      if !succeeds(SelectWindow(panes[i].windowId)) {
        return issued, false;
      }
      issued := issued + [SelectPane(paneId)];
      return issued, succeeds(SelectPane(paneId));
    }
    return [], false;
  }

  // ----- The listing format and its round trip

  function Flag(b: bool): string {
    if b then "1" else "0"
  }

  /** The fields tmux prints for a pane under the `paneFmt` format. */
  function Fields(p: PaneInfo): seq<string> {
    [p.id, p.sessionId, p.sessionName, p.windowId, Flag(p.activeInWindow), Flag(p.windowActive)]
  }

  function PrintPane(p: PaneInfo): string {
    Join(Fields(p), '\t')
  }

  predicate Printable(text: string) {
    '\t' !in text && '\n' !in text
  }

  predicate PrintablePane(p: PaneInfo) {
    Printable(p.id) && Printable(p.sessionId) && Printable(p.sessionName) && Printable(p.windowId)
  }

  /** A line of a listing: a pane, or something else that tmux or a shell may have printed between. */
  datatype Line = Pane(pane: PaneInfo) | Noise(text: string)

  /** Noise is one line that is blank or has fewer than six fields. */
  predicate ValidLine(line: Line) {
    match line
    case Pane(p) => PrintablePane(p)
    case Noise(text) => '\n' !in text && (Blank(text) || |Split(text, '\t')| < 6)
  }

  function PrintLine(line: Line): string {
    match line
    case Pane(p) => PrintPane(p)
    case Noise(text) => text
  }

  /** The whole listing, every line terminated by a newline. */
  function PrintListing(lines: seq<Line>): string {
    if lines == [] then "" else PrintListing(lines[..|lines| - 1]) + PrintLine(lines[|lines| - 1]) + ['\n']
  }

  function PanesOf(lines: seq<Line>): seq<PaneInfo> {
    if lines == [] then []
    else
      var last := lines[|lines| - 1];
      PanesOf(lines[..|lines| - 1]) + if last.Pane? then [last.pane] else []
  }

  lemma JoinLast(parts: seq<string>, sep: char)
    requires |parts| >= 1 && Last(parts) != ""
    ensures Join(parts, sep) != ""
    ensures var text := Join(parts, sep); text[|text| - 1] == Last(parts)[|Last(parts)| - 1]
  {
  }

  lemma {:induction false} JoinFree(parts: seq<string>, sep: char, c: char)
    requires |parts| >= 1 && c != sep
    requires forall i :: 0 <= i < |parts| ==> c !in parts[i]
    ensures c !in Join(parts, sep)
  {
    if |parts| <= 1 {
    } else {
      JoinFree(parts[1..], sep, c);
    }
  }

  lemma PaneLineParses(p: PaneInfo)
    requires PrintablePane(p)
    ensures ParseLine(PrintPane(p)) == Some(p)
    ensures '\n' !in PrintPane(p)
  {
    var f := Fields(p);
    SplitJoin(f, '\t');
    JoinFree(f, '\t', '\n');
    PrintedLineIsWhole(p);
  }

  /** A printed line ends in a flag, so neither trimming nor blankness concerns it. */
  lemma PrintedLineIsWhole(p: PaneInfo)
    ensures TrimCarriageReturns(PrintPane(p)) == PrintPane(p) && !Blank(PrintPane(p))
  {
    var line := PrintPane(p);
    JoinLast(Fields(p), '\t');
    assert line[|line| - 1] in line;
  }

  lemma NoiseLineParses(text: string)
    requires ValidLine(Noise(text))
    ensures ParseLine(text) == None
  {
    TrimKeepsFieldCount(text, '\t');
  }

  lemma {:induction false} ListingLines(lines: seq<Line>)
    requires forall i :: 0 <= i < |lines| ==> ValidLine(lines[i])
    ensures Last(Split(PrintListing(lines), '\n')) == ""
    ensures ParseLines(Init(Split(PrintListing(lines), '\n'))) == PanesOf(lines)
    decreases |lines|
  {
    if lines == [] {
    } else {
      var before, last := PrintListing(lines[..|lines| - 1]), lines[|lines| - 1];
      ListingLines(lines[..|lines| - 1]);
      if last.Pane? {
        PaneLineParses(last.pane);
      } else {
        NoiseLineParses(last.text);
      }
      AppendLine(before, PrintLine(last));
    }
  }

  lemma AppendLine(before: string, line: string)
    requires Last(Split(before, '\n')) == "" && '\n' !in line
    ensures Last(Split(before + line + ['\n'], '\n')) == ""
    ensures ParseLines(Init(Split(before + line + ['\n'], '\n')))
         == ParseLines(Init(Split(before, '\n'))) + if ParseLine(line).Some? then [ParseLine(line).value] else []
  {
    var parts := Split(before, '\n');
    assert before + line + ['\n'] == before + (line + ['\n']);
    SplitAppend(before, line + ['\n'], '\n');
    assert "" + (line + ['\n']) == line + (['\n'] + "");
    SplitFirst(line, "", '\n');
    var all := Init(parts) + [line, ""];
    assert Split(before + line + ['\n'], '\n') == all;
    assert Init(all) == Init(parts) + [line];
    assert Init(all)[..|Init(all)| - 1] == Init(parts);
  }

  /** Whatever a line is parsed into could have been printed: no field holds a tab or a newline. */
  lemma ParsedIsPrintable(line: string)
    requires '\n' !in line
    ensures ParseLine(line).Some? ==> PrintablePane(ParseLine(line).value)
  {
    var trimmed := TrimCarriageReturns(line);
    assert forall i :: 0 <= i < |trimmed| ==> trimmed[i] == line[i];
    SplitClean(trimmed, '\t');
    SplitKeepsOut(trimmed, '\t', '\n');
  }

  lemma {:induction false} AllParsedArePrintable(lines: seq<string>)
    requires forall i :: 0 <= i < |lines| ==> '\n' !in lines[i]
    ensures forall p :: p in ParseLines(lines) ==> PrintablePane(p)
    decreases |lines|
  {
    if lines == [] {
    } else {
      AllParsedArePrintable(lines[..|lines| - 1]);
      ParsedIsPrintable(lines[|lines| - 1]);
    }
  }

  lemma {:induction false} PanesOfHolds(lines: seq<Line>)
    ensures forall i :: 0 <= i < |lines| && lines[i].Pane? ==> lines[i].pane in PanesOf(lines)
    decreases |lines|
  {
    if lines == [] {
    } else {
      PanesOfHolds(lines[..|lines| - 1]);
    }
  }

  /**
   Round trip: parsing a printed listing, with any blank or short lines between the panes, gives exactly
   the panes printed, in order, if and only if no field of any of them holds a tab or a newline.
   */
  lemma {:induction false} ListingRoundTrip(lines: seq<Line>)
    requires forall i :: 0 <= i < |lines| && lines[i].Noise? ==> ValidLine(lines[i])
    ensures ParseLines(Split(PrintListing(lines), '\n')) == PanesOf(lines)
       <==> forall p :: p in PanesOf(lines) ==> PrintablePane(p)
  {
    SplitClean(PrintListing(lines), '\n');
    AllParsedArePrintable(Split(PrintListing(lines), '\n'));
    PanesOfHolds(lines);
    if forall p :: p in PanesOf(lines) ==> PrintablePane(p) {
      PrintableListingParses(lines);
    }
  }

  lemma PrintableListingParses(lines: seq<Line>)
    requires forall i :: 0 <= i < |lines| ==> ValidLine(lines[i])
    ensures ParseLines(Split(PrintListing(lines), '\n')) == PanesOf(lines)
  {
    ListingLines(lines);
    TrailingNewlineAddsNoPane(Split(PrintListing(lines), '\n'));
  }

  lemma TrailingNewlineAddsNoPane(parts: seq<string>)
    requires |parts| >= 1 && Last(parts) == ""
    ensures ParseLines(parts) == ParseLines(Init(parts))
  {
    assert ParseLine("") == None;
  }

  /**
   What tabs in a session name do: the name is cut at its first tab, and the piece behind it is taken
   for the window id that auto-binding compares.
   */
  lemma TabsInNameShiftFields(p: PaneInfo)
    requires '\t' in p.sessionName && '\t' !in p.id && '\t' !in p.sessionId && '\t' !in p.windowId
    ensures var pieces := Split(p.sessionName, '\t');
            && |pieces| >= 2 && ParseLine(PrintPane(p)).Some?
            && ParseLine(PrintPane(p)).value.sessionName == pieces[0]
            && ParseLine(PrintPane(p)).value.windowId == pieces[1]
  {
    var head, pieces := [p.id, p.sessionId], Split(p.sessionName, '\t');
    var tail := [p.windowId, Flag(p.activeInWindow), Flag(p.windowActive)];
    JoinSplit(p.sessionName, '\t');
    SplitClean(p.sessionName, '\t');
    SplitParts(p.sessionName, '\t');
    assert Fields(p) == head + [p.sessionName] + tail;
    JoinNested(head, pieces, tail, '\t');
    SplitJoin(head + pieces + tail, '\t');
    PrintedLineIsWhole(p);
  }

  /** Which field is which: pane, session, session name, window, and the two flags, separated by tabs. */
  lemma LineFields(a: string, b: string, c: string, d: string, e: string, f: string)
    requires '\t' !in a && '\t' !in b && '\t' !in c && '\t' !in d && '\t' !in e && '\t' !in f
    requires f != "" && f[|f| - 1] != '\r' && !GoSpace(f[|f| - 1])
    ensures var line := a + "\t" + b + "\t" + c + "\t" + d + "\t" + e + "\t" + f;
            ParseLine(line) == Some(PaneInfo(a, b, c, d, e == "1", f == "1"))
  {
    var line := a + "\t" + b + "\t" + c + "\t" + d + "\t" + e + "\t" + f;
    var fields := [a, b, c, d, e, f];
    JoinOfSix(a, b, c, d, e, f);
    SplitJoin(fields, '\t');
    JoinLast(fields, '\t');
    assert line[|line| - 1] in line;
    assert TrimCarriageReturns(line) == line;
  }

  lemma JoinOfSix(a: string, b: string, c: string, d: string, e: string, f: string)
    ensures Join([a, b, c, d, e, f], '\t') == a + "\t" + b + "\t" + c + "\t" + d + "\t" + e + "\t" + f
  {
    var t := ['\t'];
    assert [a, b, c, d, e, f][1..] == [b, c, d, e, f] && [b, c, d, e, f][1..] == [c, d, e, f];
    assert [c, d, e, f][1..] == [d, e, f] && [d, e, f][1..] == [e, f] && [e, f][1..] == [f];
    assert Join([e, f], '\t') == e + t + f;
    assert Join([d, e, f], '\t') == d + t + Join([e, f], '\t');
    assert Join([c, d, e, f], '\t') == c + t + Join([d, e, f], '\t');
    assert Join([b, c, d, e, f], '\t') == b + t + Join([c, d, e, f], '\t');
    assert Join([a, b, c, d, e, f], '\t') == a + t + Join([b, c, d, e, f], '\t');
  }
}
