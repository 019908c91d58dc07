/**
 * `handle(url:)`: a deep link into the new-recipe screen. The link's query
 * items are folded into a dictionary, written to the clipboard one
 * "name: value" line per name, and the new-recipe screen is opened.
 *
 * URL parsing is a parameter (the components, or none when parsing fails),
 * the configured scheme, host and path are a parameter, the dictionary's
 * iteration order is a parameter, and so is whether the "Image" item decodes
 * (base64, then as an image).
 */
module DeepLink {
  import opened Wrappers
  import opened Text
  import opened Seqs

  datatype QueryItem = QueryItem(name: String, value: Option<String>)

  datatype Components = Components(scheme: Option<String>, host: Option<String>, path: String, queryItems: Option<seq<QueryItem>>)

  datatype LinkConfig = LinkConfig(scheme: String, host: String, path: String)

  /** The guard: scheme, host and path all match the configured ones. */
  predicate Accepted(config: LinkConfig, c: Components) {
    c.scheme == Some(config.scheme) && c.host == Some(config.host) && c.path == config.path
  }

  /** The last item named `name`, if any. */
  function LastNamed(items: seq<QueryItem>, name: String): (r: Option<nat>)
    ensures r.Some? ==> r.value < |items| && items[r.value].name == name
    ensures r.Some? ==> forall k :: r.value < k < |items| ==> items[k].name != name
    ensures r.None? ==> forall k :: 0 <= k < |items| ==> items[k].name != name
  {
    LastIndexOfKey(items, (it: QueryItem) => it.name, name)
  }

  /** The `recipeDetails[item.name] = item.value ?? ""` loop. */
  function FoldQuery(items: seq<QueryItem>): (m: map<String, String>)
    decreases |items|
  {
    if |items| == 0 then map[]
    else
      var last := items[|items| - 1];
      FoldQuery(items[..|items| - 1])[last.name := last.value.GetOr("")]
  }

  /**
   * The dictionary has one key per item name, and each name's value is the
   * value of its last item, or "" when that item has none: later
   * duplicates win.
   */
  lemma {:induction false} FoldQueryLastWins(items: seq<QueryItem>)
    ensures forall name :: name in FoldQuery(items) <==> LastNamed(items, name).Some?
    ensures forall name :: name in FoldQuery(items) ==>
      FoldQuery(items)[name] == items[LastNamed(items, name).value].value.GetOr("")
    decreases |items|
  {
    if |items| > 0 {
      FoldQueryLastWins(items[..|items| - 1]);
    }
  }

  /** `order` lists every key of `m` once: the dictionary's iteration order. */
  predicate IsKeyOrder(m: map<String, String>, order: seq<String>) {
    Distinct(order) && (forall i :: 0 <= i < |order| ==> order[i] in m) && (forall k :: k in m ==> k in order)
  }

  /** One clipboard line without its newline. */
  function KeyLine(key: String, value: String): String {
    key + ": " + value
  }

  function ClipboardLines(m: map<String, String>, order: seq<String>): (r: seq<String>)
    requires forall i :: 0 <= i < |order| ==> order[i] in m
    ensures |r| == |order|
    ensures forall i :: 0 <= i < |order| ==> r[i] == KeyLine(order[i], m[order[i]])
    ensures forall k :: k in order ==> KeyLine(k, m[k]) in r
  {
    seq(|order|, i requires 0 <= i < |order| => KeyLine(order[i], m[order[i]]))
  }

  /** The clipboard string: every line followed by a newline. */
  function Terminated(lines: seq<String>): String
    decreases |lines|
  {
    if |lines| == 0 then [] else lines[0] + "\n" + Terminated(lines[1..])
  }

  function ClipboardString(m: map<String, String>, order: seq<String>): String
    requires IsKeyOrder(m, order)
  {
    Terminated(ClipboardLines(m, order))
  }

  /** Newline-terminated lines are the lines joined with newlines, plus an empty last piece. */
  lemma {:induction false} TerminatedIsJoin(lines: seq<String>)
    ensures Terminated(lines) == Join(lines + [""], "\n")
    decreases |lines|
  {
    if |lines| > 0 {
      TerminatedIsJoin(lines[1..]);
      assert (lines + [""])[1..] == lines[1..] + [""];
    }
  }

  lemma {:induction false} DistinctCardinality(order: seq<String>)
    requires Distinct(order)
    ensures |set k | k in order| == |order|
    decreases |order|
  {
    if |order| > 0 {
      var rest := order[1..];
      DistinctCardinality(rest);
      assert (set k | k in order) == (set k | k in rest) + {order[0]};
      assert order[0] !in rest by {
        forall j | 0 <= j < |rest|
          ensures rest[j] != order[0]
        {
          assert rest[j] == order[j + 1];
        }
      }
    }
  }

  /** Every name has its "name: value" line, and every line is the line of some name. */
  lemma ClipboardLinesCoverKeys(m: map<String, String>, order: seq<String>)
    requires IsKeyOrder(m, order)
    ensures forall k :: k in m ==> KeyLine(k, m[k]) in ClipboardLines(m, order)
    ensures forall l :: l in ClipboardLines(m, order) ==> exists k :: k in m && l == KeyLine(k, m[k])
  {
    var lines := ClipboardLines(m, order);
    forall l | l in lines
      ensures exists k :: k in m && l == KeyLine(k, m[k])
    {
      var i :| 0 <= i < |lines| && lines[i] == l;
      assert l == KeyLine(order[i], m[order[i]]);
    }
  }

  /**
   * The clipboard holds exactly one line per distinct name, in the
   * iteration order, each "name: value"; when no name or value contains a
   * newline, splitting the clipboard at newlines gives those lines and a
   * final empty piece.
   */
  lemma ClipboardOneLinePerName(m: map<String, String>, order: seq<String>)
    requires IsKeyOrder(m, order)
    ensures |ClipboardLines(m, order)| == |m|
    ensures forall k :: k in m ==> KeyLine(k, m[k]) in ClipboardLines(m, order)
    ensures forall l :: l in ClipboardLines(m, order) ==> exists k :: k in m && l == KeyLine(k, m[k])
    ensures (forall k :: k in m ==> '\n' !in k && '\n' !in m[k]) ==>
      SplitOn(ClipboardString(m, order), "\n") == ClipboardLines(m, order) + [""]
  {
    DistinctCardinality(order);
    assert (set k | k in order) == m.Keys;
    ClipboardLinesCoverKeys(m, order);
    if forall k :: k in m ==> '\n' !in k && '\n' !in m[k] {
      ClipboardSplitsBack(m, order);
    }
  }

  /** With no newline in any name or value, the clipboard string splits back into its lines and a final empty piece. */
  lemma ClipboardSplitsBack(m: map<String, String>, order: seq<String>)
    requires IsKeyOrder(m, order)
    requires forall k :: k in m ==> '\n' !in k && '\n' !in m[k]
    ensures SplitOn(ClipboardString(m, order), "\n") == ClipboardLines(m, order) + [""]
  {
    var lines := ClipboardLines(m, order);
    TerminatedIsJoin(lines);
    forall i | 0 <= i < |lines + [""]|
      ensures "\n"[0] !in (lines + [""])[i]
    {
      if i < |lines| {
        assert '\n' !in order[i] && '\n' !in m[order[i]];
        assert lines[i] == order[i] + ": " + m[order[i]];
      }
    }
    SplitJoin(lines + [""], "\n");
  }

  // ---------------------------------------------------------------------
  // The handler
  // ---------------------------------------------------------------------

  /** What is put on the pasteboard. */
  datatype Pasteboard = StringOnly(text: String) | StringAndImage(text: String, image: String)

  /** What an accepted link does: the screen is opened and the pasteboard set. */
  datatype LinkEffect = LinkEffect(openNewRecipe: bool, pasteboard: Pasteboard)

  /** The dictionary a link's components give. */
  function Details(c: Components): map<String, String> {
    FoldQuery(c.queryItems.GetOr([]))
  }

  /** `handle(url:)`: no effect unless the guard passes. */
  function HandleUrl(config: LinkConfig, parsed: Option<Components>, order: seq<String>, imageDecodes: String -> bool): (r: Option<LinkEffect>)
    requires parsed.Some? ==> IsKeyOrder(Details(parsed.value), order)
    ensures r.Some? <==> parsed.Some? && Accepted(config, parsed.value)
    ensures r.Some? ==> r.value.openNewRecipe
    ensures r.Some? ==> r.value.pasteboard.text == ClipboardString(Details(parsed.value), order)
    ensures r.Some? ==> (r.value.pasteboard.StringAndImage? <==>
      "Image" in Details(parsed.value) && imageDecodes(Details(parsed.value)["Image"]))
  {
    match parsed
    case None => None
    case Some(c) =>
      if !Accepted(config, c) then None
      else
        var m := Details(c);
        var text := ClipboardString(m, order);
        if "Image" in m && imageDecodes(m["Image"]) then Some(LinkEffect(true, StringAndImage(text, m["Image"])))
        else Some(LinkEffect(true, StringOnly(text)))
  }

  /** An accepted link opens the new-recipe screen whatever its query, even with none at all. */
  lemma AcceptedLinkAlwaysOpens(config: LinkConfig, c: Components, imageDecodes: String -> bool)
    requires Accepted(config, c) && c.queryItems.None?
    ensures HandleUrl(config, Some(c), [], imageDecodes) == Some(LinkEffect(true, StringOnly("")))
  {
  }
}
