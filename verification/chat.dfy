/**
 * The recipe assistant's chat model: the message list, the daily message
 * quota kept in the user defaults, sending a message, merging the streamed
 * answer into the list, and cutting a stream chunk into responses.
 *
 * Dates are abstract day numbers and instants, the message identifier of a
 * new user message is a parameter, and JSON decoding is a parameter
 * `decode`; the network request itself is not modelled.
 */
module Chat {
  import opened Wrappers
  import opened Text
  import opened Seqs

  datatype Role = System | User | Assistant

  datatype Message = Message(id: String, role: Role, content: String, createdAt: int)

  const PromptId: String := "prompt"

  const SystemPrompt: String :=
    "You are a chef assistant. You will help in all needs in the kitchen. You are strictly made to only answer anything cooking or recipe related. ONLY and ONLY if the user mentions 'RecipeRealm It' convert the recipe or create a recipe to be in this format: \nTitle:\nCuisine:\nPrep Time:\nCook Time:\nIngredients:\nSteps:\nNotes:\n. When giving the Ingredients:\nSteps:\nNotes:\n do not put dashes or numbers before the text, just display the text. ALSO for Prep Time:\nCook Time:\n abbreviate hours to 'hrs' and minutes to 'm'."

  /** The list a new chat starts with: the system prompt alone. */
  function InitialMessages(now: int): (ms: seq<Message>)
    ensures |ms| == 1 && ms[0].id == PromptId && ms[0].role == System
  {
    [Message(PromptId, System, SystemPrompt, now)]
  }

  const MaxDailyMessages: int := 12

  // ---------------------------------------------------------------------
  // The daily quota
  // ---------------------------------------------------------------------

  /**
   * The two user-defaults entries: the day of the last reset, absent until
   * one is written, and the stored count, which reads as 0 until written.
   */
  datatype Defaults = Defaults(resetDay: Option<int>, count: int)

  const FreshDefaults: Defaults := Defaults(None, 0)

  /** A read of the counter: the value read and the defaults afterwards. */
  datatype CountRead = CountRead(value: int, defaults: Defaults)

  /**
   * The `dailyMessageCount` getter as written: the counter resets only when
   * a reset day is stored and it is not today, and only then is a reset day
   * written.
   */
  function ReadCountAsWritten(d: Defaults, today: int): (r: CountRead)
    ensures d.resetDay.None? ==> r == CountRead(d.count, d)
    ensures d.resetDay.Some? && d.resetDay.value != today ==> r == CountRead(0, Defaults(Some(today), 0))
    ensures d.resetDay == Some(today) ==> r == CountRead(d.count, d)
  {
    match d.resetDay
    case Some(day) =>
      if day != today then CountRead(0, Defaults(Some(today), 0)) else CountRead(d.count, d)
    case None => CountRead(d.count, d)
  }

  /** The getter as intended: any read on a day other than the stored one, or with none stored, starts today's count. */
  function ReadCount(d: Defaults, today: int): (r: CountRead)
    ensures r.defaults.resetDay == Some(today)
    ensures d.resetDay == Some(today) ==> r == CountRead(d.count, d)
    ensures d.resetDay != Some(today) ==> r.value == 0 && r.defaults.count == 0
  {
    if d.resetDay != Some(today) then CountRead(0, Defaults(Some(today), 0)) else CountRead(d.count, d)
  }

  /** The setter: only the count is written. */
  function WriteCount(d: Defaults, n: int): (r: Defaults)
    ensures r.resetDay == d.resetDay && r.count == n
  {
    d.(count := n)
  }

  // ---------------------------------------------------------------------
  // Sending
  // ---------------------------------------------------------------------

  datatype ChatState = ChatState(messages: seq<Message>, text: String, defaults: Defaults)

  datatype SendResult = SendResult(state: ChatState, sent: bool)

  /**
   * `sendMessage` with the given counter getter: refused at the limit;
   * otherwise the text is appended as a user message with identifier `newId`,
   * the text field is cleared and `dailyMessageCount += 1` reads the counter
   * again and writes one more.
   */
  function SendWith(read: (Defaults, int) -> CountRead, st: ChatState, today: int, newId: String, now: int): SendResult {
    var first := read(st.defaults, today);
    if first.value >= MaxDailyMessages then
      SendResult(st.(defaults := first.defaults), false)
    else
      var again := read(first.defaults, today);
      SendResult(ChatState(st.messages + [Message(newId, User, st.text, now)], "", WriteCount(again.defaults, again.value + 1)), true)
  }

  function SendMessageAsWritten(st: ChatState, today: int, newId: String, now: int): SendResult {
    SendWith(ReadCountAsWritten, st, today, newId, now)
  }

  function SendMessage(st: ChatState, today: int, newId: String, now: int): SendResult {
    SendWith(ReadCount, st, today, newId, now)
  }

  /**
   * At the limit nothing changes; below it exactly one user message with
   * the typed text is appended, the text is cleared and the count read goes
   * up by one.
   */
  lemma SendMessageEffect(st: ChatState, today: int, newId: String, now: int)
    ensures var read := ReadCountAsWritten(st.defaults, today);
      var r := SendMessageAsWritten(st, today, newId, now);
      && (read.value >= MaxDailyMessages ==> !r.sent && r.state == st)
      && (read.value < MaxDailyMessages ==>
            && r.sent
            && r.state.messages == st.messages + [Message(newId, User, st.text, now)]
            && r.state.text == []
            && r.state.defaults.count == read.value + 1
            && ReadCountAsWritten(r.state.defaults, today).value == read.value + 1)
  {
  }

  /**
   * With no reset day stored, as after a fresh install, the getter never
   * writes one and sending never does either: the counter never resets.
   */
  lemma NoResetDayIsNeverWritten(st: ChatState, today: int, newId: String, now: int)
    requires st.defaults.resetDay.None?
    ensures ReadCountAsWritten(st.defaults, today).value == st.defaults.count
    ensures SendMessageAsWritten(st, today, newId, now).state.defaults.resetDay.None?
  {
  }

  /**
   * Once twelve messages were sent since a fresh install, every later
   * message is refused, on whatever day.
   */
  lemma FreshInstallLocksForever(st: ChatState, today: int, newId: String, now: int)
    requires st.defaults == Defaults(None, MaxDailyMessages)
    ensures SendMessageAsWritten(st, today, newId, now) == SendResult(st, false)
    ensures SendMessage(st, today, newId, now).sent
  {
  }

  /** With the intended getter, the first message of every day is accepted and the day's count starts over. */
  lemma NewDayStartsOver(st: ChatState, today: int, newId: String, now: int)
    requires st.defaults.resetDay != Some(today)
    ensures var r := SendMessage(st, today, newId, now);
      r.sent && r.state.defaults == Defaults(Some(today), 1)
  {
  }

  /** Sends within one day: the count rises by one per accepted message, and a thirteenth is refused. */
  function SendAll(st: ChatState, today: int, n: nat): (r: ChatState)
    requires st.defaults.resetDay == Some(today)
    ensures r.defaults.resetDay == Some(today)
    decreases n
  {
    if n == 0 then st else SendAll(SendMessage(st, today, "", 0).state, today, n - 1)
  }

  lemma {:induction false} DailyLimit(st: ChatState, today: int, n: nat)
    requires st.defaults == Defaults(Some(today), 0)
    requires n <= MaxDailyMessages
    ensures SendAll(st, today, n).defaults.count == n
    ensures n == MaxDailyMessages ==> !SendMessage(SendAll(st, today, n), today, "", 0).sent
    decreases n
  {
    if n > 0 {
      DailyLimit(st, today, n - 1);
      SendAllLast(st, today, n);
    }
  }

  lemma {:induction false} SendAllLast(st: ChatState, today: int, n: nat)
    requires st.defaults.resetDay == Some(today) && n > 0
    ensures SendAll(st, today, n) == SendMessage(SendAll(st, today, n - 1), today, "", 0).state
    decreases n
  {
    if n > 1 {
      SendAllLast(SendMessage(st, today, "", 0).state, today, n - 1);
    }
  }

  // ---------------------------------------------------------------------
  // Merging the streamed answer
  // ---------------------------------------------------------------------

  /** A decoded stream response: its identifier and the delta content of each choice. */
  datatype StreamResponse = StreamResponse(id: String, choices: seq<String>)

  /** `messages.lastIndex(where: { $0.id == id })`. */
  function LastIndexOfId(ms: seq<Message>, id: String): (r: Option<nat>)
    ensures r.Some? ==> r.value < |ms| && ms[r.value].id == id
    ensures r.Some? ==> forall k :: r.value < k < |ms| ==> ms[k].id != id
    ensures r.None? ==> forall k :: 0 <= k < |ms| ==> ms[k].id != id
  {
    LastIndexOfKey(ms, (m: Message) => m.id, id)
  }

  /** One response of `streamResponse.forEach`. */
  function MergeDelta(ms: seq<Message>, r: StreamResponse, now: int): (out: seq<Message>)
    ensures |ms| <= |out| <= |ms| + 1
    ensures |r.choices| == 0 ==> out == ms
    ensures |out| == |ms| + 1 ==> out[..|ms|] == ms && out[|ms|] == Message(r.id, Assistant, r.choices[0], now)
    ensures |out| == |ms| ==> forall k :: 0 <= k < |ms| && ms[k].id != r.id ==> out[k] == ms[k]
  {
    if |r.choices| == 0 then ms
    else
      var delta := r.choices[0];
      match LastIndexOfId(ms, r.id)
      case None => ms + [Message(r.id, Assistant, delta, now)]
      case Some(k) => ms[k := Message(r.id, Assistant, ms[k].content + delta, now)]
  }

  /** The responses of one chunk, in order. */
  function MergeAll(ms: seq<Message>, rs: seq<StreamResponse>, now: int): seq<Message>
    decreases |rs|
  {
    if |rs| == 0 then ms else MergeAll(MergeDelta(ms, rs[0], now), rs[1..], now)
  }

  /** What the list shows for an identifier: the content of its last message, or "". */
  function ContentOf(ms: seq<Message>, id: String): String {
    match LastIndexOfId(ms, id)
    case Some(k) => ms[k].content
    case None => []
  }

  /** The delta a response contributes to identifier `id`. */
  function DeltaFor(r: StreamResponse, id: String): String {
    if r.id == id && |r.choices| > 0 then r.choices[0] else []
  }

  lemma LastIndexAppend(ms: seq<Message>, m: Message, id: String)
    ensures LastIndexOfId(ms + [m], id) == if m.id == id then Some(|ms|) else LastIndexOfId(ms, id)
  {
    assert (ms + [m])[..|ms|] == ms;
  }

  /** Replacing a message by one with the same identifier keeps every last index. */
  lemma {:induction false} LastIndexUpdate(ms: seq<Message>, k: nat, m: Message, id: String)
    requires k < |ms| && m.id == ms[k].id
    ensures LastIndexOfId(ms[k := m], id) == LastIndexOfId(ms, id)
    decreases |ms|
  {
    var n := |ms| - 1;
    if k < n {
      assert ms[k := m][..n] == ms[..n][k := m];
      LastIndexUpdate(ms[..n], k, m, id);
    }
  }

  /** One response adds its delta to its own identifier's content and changes no other identifier's. */
  lemma MergeDeltaContent(ms: seq<Message>, r: StreamResponse, now: int, id: String)
    ensures ContentOf(MergeDelta(ms, r, now), id) == ContentOf(ms, id) + DeltaFor(r, id)
  {
    if |r.choices| > 0 {
      var delta := r.choices[0];
      match LastIndexOfId(ms, r.id)
      case None =>
        LastIndexAppend(ms, Message(r.id, Assistant, delta, now), id);
      case Some(k) =>
        var m := Message(r.id, Assistant, ms[k].content + delta, now);
        LastIndexUpdate(ms, k, m, id);
    }
  }

  /** The deltas a sequence of responses contributes to `id`, in arrival order. */
  function DeltasFor(rs: seq<StreamResponse>, id: String): String
    decreases |rs|
  {
    if |rs| == 0 then [] else DeltaFor(rs[0], id) + DeltasFor(rs[1..], id)
  }

  /** After merging, an identifier's content is what it was followed by all its deltas in arrival order. */
  lemma {:induction false} MergeAllContent(ms: seq<Message>, rs: seq<StreamResponse>, now: int, id: String)
    ensures ContentOf(MergeAll(ms, rs, now), id) == ContentOf(ms, id) + DeltasFor(rs, id)
    decreases |rs|
  {
    if |rs| > 0 {
      MergeDeltaContent(ms, rs[0], now, id);
      MergeAllContent(MergeDelta(ms, rs[0], now), rs[1..], now, id);
    }
  }

  /** Merging keeps the earlier messages of other identifiers and never shrinks the list. */
  lemma {:induction false} MergeAllGrows(ms: seq<Message>, rs: seq<StreamResponse>, now: int)
    ensures |ms| <= |MergeAll(ms, rs, now)| <= |ms| + |rs|
    decreases |rs|
  {
    if |rs| > 0 {
      MergeAllGrows(MergeDelta(ms, rs[0], now), rs[1..], now);
    }
  }

  // ---------------------------------------------------------------------
  // Cutting a stream chunk
  // ---------------------------------------------------------------------

  const DataMarker: String := "data:"

  lemma DataMarkerBorderless()
    ensures Borderless(DataMarker)
  {
    forall m | 0 < m < |DataMarker|
      ensures DataMarker[m..] != DataMarker[..|DataMarker| - m]
    {
      assert DataMarker[m..][|DataMarker| - m - 1] == ':';
      assert DataMarker[..|DataMarker| - m][|DataMarker| - m - 1] != ':';
    }
  }

  function TrimAll(pieces: seq<String>): (r: seq<String>)
    ensures |r| == |pieces|
    ensures forall i :: 0 <= i < |r| ==> r[i] == Trim(pieces[i])
  {
    seq(|pieces|, i requires 0 <= i < |pieces| => Trim(pieces[i]))
  }

  /** `compactMap` with the decoder: the pieces that decode, in order. */
  function CompactMap(decode: String -> Option<StreamResponse>, pieces: seq<String>): (r: seq<StreamResponse>)
    ensures |r| <= |pieces|
    ensures forall x :: x in r ==> exists i :: 0 <= i < |pieces| && decode(pieces[i]) == Some(x)
    ensures forall i :: 0 <= i < |pieces| && decode(pieces[i]).Some? ==> decode(pieces[i]).value in r
    decreases |pieces|
  {
    if |pieces| == 0 then []
    else
      match decode(pieces[0])
      case Some(x) => [x] + CompactMap(decode, pieces[1..])
      case None => CompactMap(decode, pieces[1..])
  }

  /** `parseStreamData`. */
  function ParseStreamData(decode: String -> Option<StreamResponse>, data: String): seq<StreamResponse> {
    CompactMap(decode, NonEmpty(TrimAll(SplitOn(data, DataMarker))))
  }

  /**
   * A chunk made of pieces joined by "data:", none of which contains the
   * marker, is cut exactly at the markers: the responses are the pieces,
   * trimmed, that are not blank and that decode, in order.
   */
  lemma ParseFrames(decode: String -> Option<StreamResponse>, pieces: seq<String>)
    requires |pieces| >= 1
    requires forall i :: 0 <= i < |pieces| ==> !Contains(pieces[i], DataMarker)
    ensures ParseStreamData(decode, Join(pieces, DataMarker)) == CompactMap(decode, NonEmpty(TrimAll(pieces)))
  {
    DataMarkerBorderless();
    SplitJoinBorderless(pieces, DataMarker);
  }

  /** A decoder that accepts everything keeps one response per non-blank piece. */
  lemma {:induction false} CompactMapTotal(decode: String -> Option<StreamResponse>, pieces: seq<String>)
    requires forall i :: 0 <= i < |pieces| ==> decode(pieces[i]).Some?
    ensures |CompactMap(decode, pieces)| == |pieces|
    ensures forall i :: 0 <= i < |pieces| ==> CompactMap(decode, pieces)[i] == decode(pieces[i]).value
    decreases |pieces|
  {
    if |pieces| > 0 {
      var rest := pieces[1..];
      CompactMapTotal(decode, rest);
      assert CompactMap(decode, pieces) == [decode(pieces[0]).value] + CompactMap(decode, rest);
      forall i | 1 <= i < |pieces|
        ensures CompactMap(decode, pieces)[i] == decode(pieces[i]).value
      {
        assert rest[i - 1] == pieces[i];
      }
    }
  }

  /** `compactMap` over two runs of pieces is the concatenation of the two results. */
  lemma {:induction false} CompactMapAppend(decode: String -> Option<StreamResponse>, a: seq<String>, b: seq<String>)
    ensures CompactMap(decode, a + b) == CompactMap(decode, a) + CompactMap(decode, b)
    decreases |a|
  {
    if |a| > 0 {
      assert (a + b)[0] == a[0];
      assert (a + b)[1..] == a[1..] + b;
      CompactMapAppend(decode, a[1..], b);
    } else {
      assert a + b == b;
    }
  }
}
