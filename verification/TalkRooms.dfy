/** The chat pages of the main window: the stack of pages, the list of rows beside it, and the
    `widgetId` map that sends a room's messages to its page. */
module TalkRooms {

  datatype Label = DefaultRow | Room(id: int)

  /** `sender` is the decimal text of the sending account. */
  datatype Event =
    | Build(room: int)
    | Talk(mes: string, sender: string, id: int)
    | Direct(mes: string, sender: string)
    | Notice(mes: string)
    | Offer(mes: string, sender: string)
    | Select(row: int)

  datatype State = State(
    rows: seq<Label>, pages: seq<string>, widgetId: map<int, int>, curWidgetid: int, current: int)

  const FRESH: State := State([DefaultRow], [""], map[], 1, 0)

  /** A chat line as both message handlers append it. */
  function Line(mes: string, sender: string): string {
    mes + " --from" + sender + " \n"
  }

  /** What an event adds to a transcript. */
  function Text(e: Event): string {
    match e
    case Talk(mes, sender, _) => Line(mes, sender)
    case Direct(mes, sender) => Line(mes, sender)
    case Notice(mes) => " \n" + mes + " \n"
    case Offer(mes, sender) => " \n" + mes + " from:" + sender + " \n"
    case _ => ""
  }

  /** `unordered_map::operator[]`: a missing key reads as 0 and is inserted. */
  function Lookup(m: map<int, int>, id: int): int {
    if id in m then m[id] else 0
  }

  /** `setCurrentIndex` ignores an index that is out of range. */
  function Show(s: State, index: int): State {
    if 0 <= index < |s.pages| then s.(current := index) else s
  }

  function Append(s: State, page: int, text: string): State {
    if 0 <= page < |s.pages| then s.(pages := s.pages[page := s.pages[page] + text]) else s
  }

  function Step(s: State, e: Event): State {
    match e
    case Build(id) =>
      s.(pages := s.pages + [""], rows := s.rows + [Room(id)],
         widgetId := s.widgetId[id := s.curWidgetid], curWidgetid := s.curWidgetid + 1)
    case Talk(_, _, id) =>
      var t := Show(s.(widgetId := s.widgetId[id := Lookup(s.widgetId, id)]), Lookup(s.widgetId, id));
      Append(t, t.current, Text(e))
    case Select(row) => Show(s, row)
    case _ => Append(s, 0, Text(e))
  }

  function Run(events: seq<Event>): State {
    if events == [] then FRESH else Step(Run(events[..|events| - 1]), events[|events| - 1])
  }

  class Window {
    var rows: seq<Label>
    var pages: seq<string>
    var widgetId: map<int, int>
    var curWidgetid: int
    var current: nat

    ghost function Abs(): State
      reads this
    {
      State(rows, pages, widgetId, curWidgetid, current)
    }

    ghost predicate Valid()
      reads this
    {
      |rows| == |pages| == curWidgetid && current < |pages|
    }

    constructor ()
      ensures Valid() && Abs() == FRESH
    {
      rows, pages, widgetId, curWidgetid, current := [DefaultRow], [""], map[], 1, 0;
    }

    /** A new room gets the last page, a row of its own and an index entry. */
    method BuildTalkRooms(id: int)
      requires Valid()
      modifies this
      ensures Valid() && Abs() == Step(old(Abs()), Build(id))
      ensures pages == old(pages) + [""] && rows == old(rows) + [Room(id)]
      ensures widgetId == old(widgetId)[id := |old(pages)|] && current == old(current)
    {
      pages := pages + [""];
      rows := rows + [Room(id)];
      widgetId := widgetId[id := curWidgetid];
      curWidgetid := curWidgetid + 1;
    }

    method SetCurrentIndex(index: int)
      requires Valid()
      modifies this`current
      ensures Valid() && Abs() == Step(old(Abs()), Select(index))
      ensures current == if 0 <= index < |pages| then index else old(current)
    {
      if 0 <= index < |pages| {
        current := index;
      }
    }

    /** The lambda behind `signal_mes_talk`: `widgetId[id]` shows the page, which gets the line. */
    method SignalMesTalk(mes: string, sender: string, id: int)
      requires Valid()
      modifies this
      ensures Valid() && Abs() == Step(old(Abs()), Talk(mes, sender, id))
      ensures var index := if id in old(widgetId) then old(widgetId)[id] else 0;
              && widgetId == old(widgetId)[id := index]
              && current == (if 0 <= index < |old(pages)| then index else old(current))
              && pages == old(pages)[current := old(pages)[current] + mes + " --from" + sender + " \n"]
      ensures rows == old(rows)
    {
      var mes1 := mes + " --from" + sender;
      if id !in widgetId {
        widgetId := widgetId[id := 0];
      }
      assert widgetId == old(widgetId)[id := Lookup(old(widgetId), id)];
      SetCurrentIndex(widgetId[id]);
      var s := pages[current];
      s := s + mes1;
      s := s + " \n";
      pages := pages[current := s];
      assert s == old(pages)[current] + Line(mes, sender);
      assert s == old(pages)[current] + mes + " --from" + sender + " \n";
    }

    method SignalMesSolt(mes: string, sender: string)
      requires Valid()
      modifies this`pages
      ensures Valid() && Abs() == Step(old(Abs()), Direct(mes, sender))
      ensures pages == old(pages)[0 := old(pages)[0] + mes + " --from" + sender + " \n"]
    {
      var mes1 := mes + " --from" + sender;
      var s := pages[0];
      s := s + mes1;
      s := s + " \n";
      pages := pages[0 := s];
      assert s == old(pages)[0] + Line(mes, sender);
      assert s == old(pages)[0] + mes + " --from" + sender + " \n";
    }

    method SignalPerSolt(mes: string)
      requires Valid()
      modifies this`pages
      ensures Valid() && Abs() == Step(old(Abs()), Notice(mes))
      ensures pages == old(pages)[0 := old(pages)[0] + " \n" + mes + " \n"]
    {
      var s := pages[0];
      s := s + " \n";
      s := s + mes;
      s := s + " \n";
      pages := pages[0 := s];
      assert s == old(pages)[0] + Text(Notice(mes));
    }

    /** `mes` is the text behind the header of the message, `sender` its account. */
    method SignalFileRecvSlot(mes: string, sender: string)
      requires Valid()
      modifies this`pages
      ensures Valid() && Abs() == Step(old(Abs()), Offer(mes, sender))
      ensures pages == old(pages)[0 := old(pages)[0] + " \n" + mes + " from:" + sender + " \n"]
    {
      var ss := pages[0];
      ss := ss + " \n";
      ss := ss + mes;
      ss := ss + " from:";
      ss := ss + sender;
      ss := ss + " \n";
      pages := pages[0 := ss];
      assert ss == old(pages)[0] + Text(Offer(mes, sender));
    }
  }

  // -------------------------------------------------------------- tab index

  /** Searching the list: the largest row whose text is this room, or the default row. */
  function LastRow(rows: seq<Label>, id: int): (r: nat)
    ensures r == 0 || (r < |rows| && rows[r] == Room(id))
    ensures forall k :: r < k < |rows| ==> rows[k] != Room(id)
  {
    if |rows| <= 1 then 0
    else if rows[|rows| - 1] == Room(id) then |rows| - 1
    else LastRow(rows[..|rows| - 1], id)
  }

  ghost predicate Agrees(s: State) {
    && |s.rows| == |s.pages| == s.curWidgetid && 0 < |s.rows| && 0 <= s.current < |s.pages|
    && s.rows[0] == DefaultRow
    && forall id :: Lookup(s.widgetId, id) == LastRow(s.rows, id)
  }

  lemma BuildAgrees(s: State, id: int)
    requires Agrees(s)
    ensures Agrees(Step(s, Build(id)))
  {
    assert (s.rows + [Room(id)])[..|s.rows|] == s.rows;
  }

  lemma StepAgrees(s: State, e: Event)
    requires Agrees(s)
    ensures Agrees(Step(s, e))
  {
    hide LastRow;
    match e
    case Build(id) => BuildAgrees(s, id);
    case _ =>
  }

  /** After any events the map gives, for every room id whatever, what a search of the list would:
      rows, pages and counter stay level, and unknown rooms read as the default page. */
  lemma {:induction false} IndexAgreesWithSearch(events: seq<Event>)
    ensures Agrees(Run(events))
    decreases |events|
  {
    if events == [] {
    } else {
      IndexAgreesWithSearch(events[..|events| - 1]);
      StepAgrees(Run(events[..|events| - 1]), events[|events| - 1]);
    }
  }

  // ------------------------------------------------------------- transcripts

  function Built(events: seq<Event>): (n: nat)
    ensures n <= |events|
  {
    if events == [] then 0
    else Built(events[..|events| - 1]) + if events[|events| - 1].Build? then 1 else 0
  }

  /** From the events alone: the page of the latest room created under this id, else the first. */
  function RoomPage(events: seq<Event>, id: int): (p: nat)
    ensures p <= Built(events)
  {
    if events == [] then 0
    else
      var front := events[..|events| - 1];
      if events[|events| - 1] == Build(id) then Built(front) + 1 else RoomPage(front, id)
  }

  predicate IsMessage(e: Event) {
    e.Talk? || e.Direct? || e.Notice? || e.Offer?
  }

  /** The one page a message belongs to when it arrives after these events. */
  function Target(events: seq<Event>, e: Event): (p: nat)
    ensures p <= Built(events)
  {
    if e.Talk? then RoomPage(events, e.id) else 0
  }

  /** Everything routed to a page, in order of arrival. */
  function Transcript(events: seq<Event>, page: nat): string {
    if events == [] then ""
    else
      var front, e := events[..|events| - 1], events[|events| - 1];
      Transcript(front, page) + if IsMessage(e) && Target(front, e) == page then Text(e) else ""
  }

  ghost predicate PagesTranscribed(events: seq<Event>, pages: seq<string>) {
    |pages| == Built(events) + 1 && forall p :: 0 <= p < |pages| ==> pages[p] == Transcript(events, p)
  }

  ghost predicate Transcribed(events: seq<Event>, s: State) {
    PagesTranscribed(events, s.pages) && forall id :: Lookup(s.widgetId, id) == RoomPage(events, id)
  }

  lemma {:induction false} NewPageIsEmpty(events: seq<Event>, page: nat)
    requires page > Built(events)
    ensures Transcript(events, page) == ""
    decreases |events|
  {
    if events == [] {
    } else {
      NewPageIsEmpty(events[..|events| - 1], page);
    }
  }

  /** The pages after an event, given the page it is routed to. */
  function PagesAfter(pages: seq<string>, e: Event, target: nat): seq<string>
    requires target < |pages|
  {
    if IsMessage(e) then pages[target := pages[target] + Text(e)] else if e.Build? then pages + [""] else pages
  }

  /** A message changes one page and leaves the map's readings alone. */
  lemma StepPages(s: State, e: Event, target: nat)
    requires target < |s.pages| && target == if e.Talk? then Lookup(s.widgetId, e.id) else 0
    ensures var t := Step(s, e);
            t.pages == PagesAfter(s.pages, e, target)
            && (!e.Build? ==> forall id :: Lookup(t.widgetId, id) == Lookup(s.widgetId, id))
  {
  }

  lemma TranscriptSnoc(events: seq<Event>, e: Event, page: nat)
    ensures Transcript(events + [e], page)
            == Transcript(events, page) + if IsMessage(e) && Target(events, e) == page then Text(e) else ""
  {
  }

  lemma RouteSnoc(events: seq<Event>, e: Event, id: int)
    ensures Built(events + [e]) == Built(events) + if e.Build? then 1 else 0
    ensures RoomPage(events + [e], id) == if e == Build(id) then Built(events) + 1 else RoomPage(events, id)
  {
  }

  lemma PagesKeepUp(events: seq<Event>, e: Event, pages: seq<string>)
    requires PagesTranscribed(events, pages)
    ensures PagesTranscribed(events + [e], PagesAfter(pages, e, Target(events, e)))
  {
    RouteSnoc(events, e, 0);
    var after := PagesAfter(pages, e, Target(events, e));
    forall p | 0 <= p < |after|
      ensures after[p] == Transcript(events + [e], p)
    {
      TranscriptSnoc(events, e, p);
      if p == |pages| {
        NewPageIsEmpty(events, p);
      } else {
        assert pages[p] == Transcript(events, p);
      }
    }
  }

  lemma StepTranscribes(events: seq<Event>, e: Event, s: State)
    requires Agrees(s) && Transcribed(events, s)
    ensures Transcribed(events + [e], Step(s, e))
  {
    assert e.Talk? ==> Lookup(s.widgetId, e.id) == RoomPage(events, e.id);
    StepPages(s, e, Target(events, e));
    PagesKeepUp(events, e, s.pages);
    var t := Step(s, e);
    forall id
      ensures Lookup(t.widgetId, id) == RoomPage(events + [e], id)
    {
      RouteSnoc(events, e, id);
      assert Lookup(s.widgetId, id) == RoomPage(events, id);
    }
  }

  /** Transcript conservation over any events: every page shows exactly the messages routed to it
      when they arrived, in that order; and every message had one page, which existed. */
  lemma {:induction false} TranscriptsConserved(events: seq<Event>)
    ensures Transcribed(events, Run(events))
    decreases |events|
  {
    if events == [] {
    } else {
      var n := |events| - 1;
      IndexAgreesWithSearch(events[..n]);
      TranscriptsConserved(events[..n]);
      StepTranscribes(events[..n], events[n], Run(events[..n]));
      assert events[..n] + [events[n]] == events;
    }
  }

  // ------------------------------------------------------- the page in view

  /** The page in view after one more event: a row that exists, selected, or a room message's page. */
  function ShownNext(events: seq<Event>, e: Event, shown: nat): (p: nat)
    requires shown <= Built(events)
    ensures p <= Built(events)
  {
    match e
    case Select(row) => if 0 <= row <= Built(events) then row else shown
    case Talk(_, _, id) => RoomPage(events, id)
    case _ => shown
  }

  /** From the events alone: the row last selected, if there was such a row, or the page of the last
      room message, whichever came later. */
  function Shown(events: seq<Event>): (p: nat)
    ensures p <= Built(events)
  {
    if events == [] then 0
    else ShownNext(events[..|events| - 1], events[|events| - 1], Shown(events[..|events| - 1]))
  }

  lemma ShownSnoc(events: seq<Event>, e: Event)
    ensures Shown(events + [e]) == ShownNext(events, e, Shown(events))
  {
    assert (events + [e])[..|events|] == events;
  }

  lemma StepShows(events: seq<Event>, e: Event, s: State)
    requires Transcribed(events, s) && s.current == Shown(events)
    ensures Step(s, e).current == Shown(events + [e])
  {
    hide Transcript, RoomPage, Shown, Built;
    ShownSnoc(events, e);
    match e
    case Talk(_, _, id) => assert Lookup(s.widgetId, id) == RoomPage(events, id);
    case _ =>
  }

  /** The page in view after any events. */
  lemma {:induction false} ShownIsCurrent(events: seq<Event>)
    ensures Run(events).current == Shown(events)
    decreases |events|
  {
    if events == [] {
    } else {
      var n := |events| - 1;
      TranscriptsConserved(events[..n]);
      ShownIsCurrent(events[..n]);
      StepShows(events[..n], events[n], Run(events[..n]));
      assert events[..n] + [events[n]] == events;
    }
  }

  // ---------------------------------------------------------------- basename

  /** A `QString` read past its end gives the null character. */
  function CharAt(s: string, i: nat): char {
    if i < |s| then s[i] else '\0'
  }

  function Mid(s: string, position: nat): string {
    if position >= |s| then "" else s[position..]
  }

  predicate IsBasename(path: string, name: string) {
    && '/' !in name
    && |name| <= |path| && path[|path| - |name|..] == name
    && (|name| < |path| ==> path[|path| - |name| - 1] == '/')
  }

  /** Every path has one basename only, so the loop below computes the basename. */
  lemma BasenameIsUnique(path: string, a: string, b: string)
    requires IsBasename(path, a) && IsBasename(path, b)
    ensures a == b
  {
  }

  /** `signal_file_solt`'s loop: the index runs on over the old length while the name shrinks,
      and still the result is the part after the last slash. */
  method Basename(path: string) returns (name: string)
    ensures IsBasename(path, name)
  {
    name := path;
    var i := |name| - 1;
    while i >= 0
      invariant -1 <= i < |path| || path == ""
      invariant |name| <= |path| && path[|path| - |name|..] == name
      invariant |name| < |path| ==> IsBasename(path, name)
      invariant |name| == |path| ==> forall k :: 0 <= k && i < k < |path| ==> path[k] != '/'
      decreases i
    {
      if CharAt(name, i) == '/' {
        assert |name| == |path|;
        name := Mid(name, i + 1);
      }
      i := i - 1;
    }
  }
}
