/**
 * The Swift side of the in-app browser's "scan" button: turning the string
 * the page script returns into the text shown to the user, and the enabled
 * state of the scan button.
 *
 * `WebViewWithButton` in UIViews/WKWebView.swift receives four lists joined
 * with "|~|"; the older variant in UIViews/SarfariView+WKWebView.swift
 * receives plain text and looks for three keywords in it. The page scripts
 * themselves run in the browser and are not modelled: their result is the
 * input here.
 */
module WebScan {
  import opened Wrappers
  import opened Text
  import opened Seqs

  /** One parsed result: the keyword and the text shown for it. */
  datatype Entry = Entry(keyword: String, extractedText: String)

  /** The text shown for each entry, in order. */
  function Texts(entries: seq<Entry>): (r: seq<String>)
    ensures |r| == |entries|
    ensures forall i :: 0 <= i < |r| ==> r[i] == entries[i].extractedText
  {
    seq(|entries|, i requires 0 <= i < |entries| => entries[i].extractedText)
  }

  /**
   * The middle of `e` when it starts with `prefix` and ends with the blank
   * line every entry ends with; the reader's way back from an entry to the
   * text it shows.
   */
  function Unwrap(prefix: String, e: String): (r: Option<String>)
    ensures r.Some? ==> e == prefix + r.value + "\n\n"
  {
    if |prefix| + 2 <= |e| && StartsWith(e, prefix) && e[|e| - 2..] == "\n\n"
    then Some(e[|prefix|..|e| - 2])
    else None
  }

  lemma UnwrapWrapped(prefix: String, t: String)
    ensures Unwrap(prefix, prefix + t + "\n\n") == Some(t)
  {
    var e := prefix + t + "\n\n";
    assert e[..|prefix|] == prefix;
    assert e[|e| - 2..] == "\n\n";
    assert e[|prefix|..|e| - 2] == t;
  }

  // ---------------------------------------------------------------------
  // The four-list payload (UIViews/WKWebView.swift)
  // ---------------------------------------------------------------------

  /** The separator the page script puts between the four lists. */
  const Separator: String := "|~|"

  /** The lists asked for, in order. */
  const ListKeywords: seq<String> := ["ingredients", "steps", "instructions", "directions"]

  /** The heading in front of a list that was found. */
  function ListHeading(keyword: String): String {
    "Here's the " + keyword + " list:\n"
  }

  /** The text shown for one list. */
  function ListEntry(keyword: String, extracted: String): String {
    if extracted != [] then ListHeading(keyword) + extracted + "\n\n"
    else "The " + keyword + " list was NOT found on the webpage.\n\n"
  }

  /** Component `i`, or "" when the payload has fewer components. */
  function Component(parts: seq<String>, i: nat): (r: String)
    ensures i < |parts| ==> r == parts[i]
    ensures i >= |parts| ==> r == []
  {
    if i < |parts| then parts[i] else ""
  }

  /** `parseText` of the four-list browser. */
  function ParseLists(combined: String): (r: seq<Entry>)
    ensures |r| == |ListKeywords| == 4
    ensures forall i :: 0 <= i < |r| ==> r[i].keyword == ListKeywords[i]
  {
    var parts := SplitOn(combined, Separator);
    seq(|ListKeywords|, i requires 0 <= i < |ListKeywords| =>
      Entry(ListKeywords[i], ListEntry(ListKeywords[i], Component(parts, i))))
  }

  /**
   * An entry gives its list back: the text after the heading when the list
   * was found, nothing when it was empty.
   */
  lemma ListEntryInverse(keyword: String, extracted: String)
    ensures Unwrap(ListHeading(keyword), ListEntry(keyword, extracted)) ==
      if extracted == [] then None else Some(extracted)
  {
    if extracted == [] {
      var e := ListEntry(keyword, extracted);
      assert e[0] == 'T' && ListHeading(keyword)[0] == 'H';
    } else {
      UnwrapWrapped(ListHeading(keyword), extracted);
    }
  }

  /** The page script's result: the lists joined with the separator. */
  function Payload(lists: seq<String>): String {
    Join(lists, Separator)
  }

  /** Splitting at the separator takes off a first piece without a "|". */
  lemma SplitOnFirst(a: String, rest: String)
    requires '|' !in a
    ensures SplitOn(a + Separator + rest, Separator) == [a] + SplitOn(rest, Separator)
  {
    FindAfter(a, Separator, rest);
    var s := a + Separator + rest;
    assert s[..|a|] == a;
    assert s[|a| + |Separator|..] == rest;
  }

  lemma PayloadCons(a: String, more: seq<String>)
    requires |more| > 0
    ensures Payload([a] + more) == a + Separator + Payload(more)
  {
    assert ([a] + more)[1..] == more;
  }

  /**
   * Splitting a joined text whose first pieces lack a "|" gives those
   * pieces back, followed by the split of the rest.
   */
  lemma {:induction false} SplitPayloadPrefix(parts: seq<String>, rest: String)
    requires forall i :: 0 <= i < |parts| ==> '|' !in parts[i]
    ensures SplitOn(Payload(parts + [rest]), Separator) == parts + SplitOn(rest, Separator)
    decreases |parts|
  {
    if |parts| > 0 {
      var tail := parts[1..];
      assert forall i :: 0 <= i < |tail| ==> tail[i] == parts[i + 1];
      SplitPayloadPrefix(tail, rest);
      SplitPayloadStep(parts, rest);
    }
  }

  /** One step of the induction above: a leading piece without a "|" is peeled off. */
  lemma SplitPayloadStep(parts: seq<String>, rest: String)
    requires |parts| > 0 && '|' !in parts[0]
    requires SplitOn(Payload(parts[1..] + [rest]), Separator) == parts[1..] + SplitOn(rest, Separator)
    ensures SplitOn(Payload(parts + [rest]), Separator) == parts + SplitOn(rest, Separator)
  {
    PayloadPeel(parts, rest);
    SplitOnFirst(parts[0], Payload(parts[1..] + [rest]));
    ConsTail(parts, SplitOn(rest, Separator));
  }

  /** The joined text of `parts + [rest]` starts with the first piece and a separator. */
  lemma PayloadPeel(parts: seq<String>, rest: String)
    requires |parts| > 0
    ensures Payload(parts + [rest]) == parts[0] + Separator + Payload(parts[1..] + [rest])
  {
    assert parts + [rest] == [parts[0]] + (parts[1..] + [rest]);
    PayloadCons(parts[0], parts[1..] + [rest]);
  }

  lemma ConsTail<T>(parts: seq<T>, ys: seq<T>)
    requires |parts| > 0
    ensures [parts[0]] + (parts[1..] + ys) == parts + ys
  {
    assert parts == [parts[0]] + parts[1..];
  }

  /**
   * The payload the page script builds from four lists without a "|" in
   * them is shown as those four lists, in order, each found or reported
   * missing.
   */
  lemma ParsePayload(lists: seq<String>)
    requires |lists| == 4
    requires forall i :: 0 <= i < |lists| ==> '|' !in lists[i]
    ensures forall i :: 0 <= i < 4 ==>
      ParseLists(Payload(lists))[i] == Entry(ListKeywords[i], ListEntry(ListKeywords[i], lists[i]))
  {
    SplitJoin(lists, Separator);
  }

  /** Components after the fourth never show. */
  lemma ExtraComponentsIgnored(lists: seq<String>, rest: String)
    requires |lists| == 4
    requires forall i :: 0 <= i < |lists| ==> '|' !in lists[i]
    ensures ParseLists(Payload(lists + [rest])) == ParseLists(Payload(lists))
  {
    SplitPayloadPrefix(lists, rest);
    SplitJoin(lists, Separator);
  }

  /** A payload with no separator at all is the ingredients list alone; the other three are reported missing. */
  lemma MissingComponentsAreEmpty(a: String)
    requires '|' !in a
    ensures var r := ParseLists(a);
      && r[0].extractedText == ListEntry("ingredients", a)
      && r[1].extractedText == ListEntry("steps", [])
      && r[2].extractedText == ListEntry("instructions", [])
      && r[3].extractedText == ListEntry("directions", [])
  {
    FindAbsent(a, Separator);
  }

  // ---------------------------------------------------------------------
  // What a scan shows
  // ---------------------------------------------------------------------

  /** The outcome of running the page script: its string, or an error description. */
  datatype ScriptResult = ScriptSucceeded(text: String) | ScriptFailed(error: String)

  /** What the scan presents. */
  datatype Shown = ScannedText(text: String) | ErrorMessage(message: String)

  const NoKeywordsMessage: String := "No keywords found on the webpage."

  /** The result branch of `scanText`, for either browser's `parseText`. */
  function ScanShown(parse: String -> seq<Entry>, result: ScriptResult): (r: Shown)
    ensures r.ScannedText? <==> result.ScriptSucceeded? && parse(result.text) != []
    ensures r.ErrorMessage? && result.ScriptSucceeded? ==> r.message == NoKeywordsMessage
  {
    match result
    case ScriptSucceeded(text) =>
      var parsed := parse(text);
      if parsed == [] then ErrorMessage(NoKeywordsMessage)
      else ScannedText(Concat(Texts(parsed)))
    case ScriptFailed(error) => ErrorMessage("An error occurred while scanning the web page: " + error)
  }

  /**
   * A successful scan of the four-list browser always shows the four
   * entries one after the other: the "No keywords found" branch cannot be
   * taken.
   */
  lemma ListScanShowsAllFour(text: String)
    ensures var r := ParseLists(text);
      ScanShown(ParseLists, ScriptSucceeded(text)) ==
      ScannedText(r[0].extractedText + r[1].extractedText + r[2].extractedText + r[3].extractedText)
  {
    var r := ParseLists(text);
    assert Texts(r) == [r[0].extractedText, r[1].extractedText, r[2].extractedText, r[3].extractedText];
    ConcatFour(r[0].extractedText, r[1].extractedText, r[2].extractedText, r[3].extractedText);
  }

  lemma ConcatFour(a: String, b: String, c: String, d: String)
    ensures Concat([a, b, c, d]) == a + b + c + d
  {
    assert [a, b, c, d][1..] == [b, c, d];
    assert [b, c, d][1..] == [c, d];
    assert [c, d][1..] == [d];
    assert [d][1..] == [];
    assert Concat([d]) == d + Concat([]) == d;
    assert Concat([c, d]) == c + d;
    assert Concat([b, c, d]) == b + (c + d);
  }

  // ---------------------------------------------------------------------
  // The scan button (UIViews/WKWebView.swift; the same in the older variant)
  // ---------------------------------------------------------------------

  datatype Button = Button(isLoadingPage: bool, enabled: bool)

  /** After `init(frame:)`: not loading, and the button disabled. */
  const InitialButton: Button := Button(false, false)

  /** The events that change the button. */
  datatype PageEvent = RequestSet | NavigationStarted | NavigationFinished | ScanTapped | ScanCompleted

  predicate IsLoadEvent(ev: PageEvent) {
    ev.RequestSet? || ev.NavigationStarted? || ev.NavigationFinished?
  }

  /** The button is enabled exactly when no page is loading. */
  predicate Synced(b: Button) {
    b.enabled == !b.isLoadingPage
  }

  /** One event; setting `isLoadingPage` always also sets the button through its observer. */
  function OnEvent(b: Button, ev: PageEvent): (r: Button)
    ensures IsLoadEvent(ev) ==> Synced(r)
    ensures !IsLoadEvent(ev) ==> r.isLoadingPage == b.isLoadingPage
    ensures ev.ScanTapped? ==> !r.enabled
    ensures ev.ScanCompleted? ==> r.enabled
  {
    match ev
    case RequestSet => Button(true, false)
    case NavigationStarted => Button(true, false)
    case NavigationFinished => Button(false, true)
    case ScanTapped => b.(enabled := false)
    case ScanCompleted => b.(enabled := true)
  }

  function Run(b: Button, evs: seq<PageEvent>): Button
    decreases |evs|
  {
    if |evs| == 0 then b else OnEvent(Run(b, evs[..|evs| - 1]), evs[|evs| - 1])
  }

  /**
   * Whatever happened before, once the last event is a load or navigation
   * event the button is enabled exactly when no page is loading; a scan
   * leaves the loading state alone.
   */
  lemma RunEndsSynced(b: Button, evs: seq<PageEvent>)
    ensures |evs| > 0 && IsLoadEvent(evs[|evs| - 1]) ==> Synced(Run(b, evs))
    ensures |evs| > 0 && !IsLoadEvent(evs[|evs| - 1]) ==>
      Run(b, evs).isLoadingPage == Run(b, evs[..|evs| - 1]).isLoadingPage
  {
  }

  /** A scan started on a loaded page ends with the button as it was. */
  lemma ScanRestoresButton()
    ensures Run(Button(false, true), [ScanTapped, ScanCompleted]) == Button(false, true)
    ensures Run(InitialButton, [RequestSet, NavigationFinished]) == Button(false, true)
  {
    assert [ScanTapped, ScanCompleted][..1] == [ScanTapped];
    assert [RequestSet, NavigationFinished][..1] == [RequestSet];
  }

  // ---------------------------------------------------------------------
  // The keyword variant (UIViews/SarfariView+WKWebView.swift)
  // ---------------------------------------------------------------------

  const Keywords: seq<String> := ["ingredients", "instructions", "nutrition"]

  /**
   * `text.range(of: keyword, options: .caseInsensitive)?.lowerBound`, with
   * ASCII case folding: the first place where the text, lower-cased, shows
   * the keyword, lower-cased.
   */
  function FindKeyword(text: String, keyword: String): (r: Option<nat>)
    ensures r.Some? ==> r.value + |keyword| <= |text| && Lower(text[r.value..r.value + |keyword|]) == Lower(keyword)
    ensures r.Some? ==> forall k :: 0 <= k < r.value ==> !OccursAt(Lower(text), Lower(keyword), k)
    ensures r.None? <==> !Contains(Lower(text), Lower(keyword))
  {
    var r := Find(Lower(text), Lower(keyword));
    if r.Some? then
      assert Lower(text)[r.value..r.value + |keyword|] == Lower(text[r.value..r.value + |keyword|]);
      r
    else r
  }

  function KeywordHeading(keyword: String): String {
    "Here's the " + keyword + " list: "
  }

  /** The text shown for one keyword: everything after its first occurrence, or a not-found line. */
  function KeywordEntry(text: String, keyword: String): String {
    match FindKeyword(text, keyword)
    case Some(i) => KeywordHeading(keyword) + text[i + |keyword|..] + "\n\n"
    case None => "The word '" + keyword + "' was NOT found on the webpage.\n\n"
  }

  /** `parseText` of the keyword browser. */
  function ParseKeywords(text: String): (r: seq<Entry>)
    ensures |r| == |Keywords| == 3
    ensures forall i :: 0 <= i < |r| ==> r[i].keyword == Keywords[i]
  {
    seq(|Keywords|, i requires 0 <= i < |Keywords| => Entry(Keywords[i], KeywordEntry(text, Keywords[i])))
  }

  /** An entry gives back the rest of the text after the keyword, or nothing when the keyword is absent. */
  lemma KeywordEntryInverse(text: String, keyword: String)
    ensures Unwrap(KeywordHeading(keyword), KeywordEntry(text, keyword)) ==
      match FindKeyword(text, keyword)
      case Some(i) => Some(text[i + |keyword|..])
      case None => None
  {
    match FindKeyword(text, keyword)
    case Some(i) =>
      UnwrapWrapped(KeywordHeading(keyword), text[i + |keyword|..]);
    case None =>
      var e := KeywordEntry(text, keyword);
      assert e[0] == 'T' && KeywordHeading(keyword)[0] == 'H';
  }

  lemma LowerAppend(a: String, b: String)
    ensures Lower(a + b) == Lower(a) + Lower(b)
  {
  }

  /**
   * The search ignores case: a keyword written in any case after a stretch
   * that cannot start it is found there, and the entry shows exactly what
   * follows it.
   */
  lemma KeywordFoundInAnyCase(a: String, w: String, b: String, keyword: String)
    requires |keyword| > 0 && Lower(w) == Lower(keyword)
    requires forall j :: 0 <= j < |a| ==> ToLower(a[j]) != ToLower(keyword[0])
    ensures KeywordEntry(a + w + b, keyword) == KeywordHeading(keyword) + b + "\n\n"
  {
    var text := a + w + b;
    LowerAppend(a + w, b);
    LowerAppend(a, w);
    var k := Lower(keyword);
    assert k[0] !in Lower(a) by {
      forall j | 0 <= j < |a|
        ensures Lower(a)[j] != k[0]
      {
      }
    }
    FindAfter(Lower(a), k, Lower(b));
    assert Lower(text) == Lower(a) + k + Lower(b);
    assert FindKeyword(text, keyword) == Some(|a|);
    assert text[|a| + |keyword|..] == b;
  }

  /** A successful scan of the keyword browser always shows its three entries: the error branch cannot be taken. */
  lemma KeywordScanShowsAllThree(text: String)
    ensures var r := ParseKeywords(text);
      ScanShown(ParseKeywords, ScriptSucceeded(text)) ==
      ScannedText(r[0].extractedText + r[1].extractedText + r[2].extractedText)
  {
    var r := ParseKeywords(text);
    var ts := Texts(r);
    assert ts == [r[0].extractedText, r[1].extractedText, r[2].extractedText];
    assert Concat(ts[2..]) == r[2].extractedText;
    assert Concat(ts[1..]) == r[1].extractedText + Concat(ts[2..]);
  }

  // ---------------------------------------------------------------------
  // `filterText` (UIViews/SarfariView+WKWebView.swift)
  // ---------------------------------------------------------------------

  const IrrelevantKeywords: seq<String> := ["reply", "comment", "share", "like", "post"]

  /** A line worth keeping: between 11 and 199 characters, with a digit, and no chatter word in any case. */
  predicate Relevant(line: String) {
    && (forall k :: 0 <= k < |IrrelevantKeywords| ==> !Contains(Lower(line), IrrelevantKeywords[k]))
    && 10 < |line| < 200
    && (exists i :: 0 <= i < |line| && IsDigit(line[i]))
  }

  /** `textSections.flatMap { $0.split(separator: "\n") }`: the non-empty lines of every section, in order. */
  function SectionLines(sections: seq<String>): (r: seq<String>)
    ensures forall i :: 0 <= i < |r| ==> r[i] != [] && '\n' !in r[i]
  {
    if |sections| == 0 then []
    else
      var pieces := SplitOn(sections[0], "\n");
      var first := NonEmpty(pieces);
      assert forall i :: 0 <= i < |first| ==> '\n' !in first[i] by {
        forall i | 0 <= i < |first|
          ensures '\n' !in first[i]
        {
          ContainsChar(first[i], '\n');
        }
      }
      first + SectionLines(sections[1..])
  }

  /** One section contributes its own non-empty lines, in order. */
  lemma SectionLinesSingle(s: String)
    ensures SectionLines([s]) == NonEmpty(SplitOn(s, "\n"))
  {
    assert [s][1..] == [];
  }

  /** `flatMap` distributes over concatenation: the lines of two runs of sections are the lines of each, one after the other. */
  lemma {:induction false} SectionLinesAppend(a: seq<String>, b: seq<String>)
    ensures SectionLines(a + b) == SectionLines(a) + SectionLines(b)
    decreases |a|
  {
    if |a| == 0 {
      assert a + b == b;
    } else {
      assert (a + b)[0] == a[0];
      assert (a + b)[1..] == a[1..] + b;
      SectionLinesAppend(a[1..], b);
    }
  }

  /** A line is produced iff it is a non-empty newline-split piece of some section. */
  lemma {:induction false} SectionLinesMembers(sections: seq<String>, x: String)
    ensures x in SectionLines(sections) <==>
      x != [] && exists j :: 0 <= j < |sections| && x in SplitOn(sections[j], "\n")
    decreases |sections|
  {
    if |sections| > 0 {
      var rest := sections[1..];
      SectionLinesMembers(rest, x);
      var first := NonEmpty(SplitOn(sections[0], "\n"));
      assert SectionLines(sections) == first + SectionLines(rest);
      if x != [] && exists j :: 0 <= j < |sections| && x in SplitOn(sections[j], "\n") {
        var j :| 0 <= j < |sections| && x in SplitOn(sections[j], "\n");
        if j > 0 {
          assert rest[j - 1] == sections[j];
        }
      }
      if x in SectionLines(rest) {
        var j :| 0 <= j < |rest| && x in SplitOn(rest[j], "\n");
        assert sections[j + 1] == rest[j];
      }
    }
  }

  /** `filterText`. */
  function FilterText(sections: seq<String>): String {
    Join(Filter(Relevant, SectionLines(sections)), "\n")
  }

  /**
   * The filtered text is the relevant lines, in their original order, one
   * per line: reading it back line by line gives exactly the kept lines, a
   * line is kept iff it is a line of some section and relevant, and the
   * text is empty iff nothing was kept.
   */
  lemma FilterTextLines(sections: seq<String>)
    ensures var lines := SectionLines(sections);
      var kept := Filter(Relevant, lines);
      && IsSubsequence(kept, lines)
      && (forall i :: 0 <= i < |kept| ==> kept[i] in lines && Relevant(kept[i]))
      && (forall i :: 0 <= i < |lines| && Relevant(lines[i]) ==> lines[i] in kept)
      && (FilterText(sections) == [] <==> kept == [])
      && (kept != [] ==> SplitOn(FilterText(sections), "\n") == kept)
  {
    var lines := SectionLines(sections);
    var kept := Filter(Relevant, lines);
    if kept != [] {
      assert forall i :: 0 <= i < |kept| ==> kept[i] in lines;
      SplitJoin(kept, "\n");
      if FilterText(sections) == [] {
        assert SplitOn([], "\n") == [[]];
        assert kept[0] == [];
      }
    }
  }
}
