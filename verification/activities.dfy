/** The records the client exchanges with the relay, and what the client does to
    its terminal and to the outside world, as a sequence of events. */
module Activities {
  import opened JsRuntime

  /** The id and name under which the client posts, and by which it
      recognises its own messages coming back on the stream. */
  const SelfId: string := "DirectLineClient"

  const HeroCardType: string := "application/vnd.microsoft.card.hero"
  const PngType: string := "image/png"

  /** The `from` field of an activity. */
  datatype Account = Account(id: Option<string>, name: Option<string>)

  /** The `content` of a card attachment. */
  datatype CardContent = CardContent(title: Option<string>, text: Option<string>)

  datatype Attachment = Attachment(
    contentType: Option<string>,
    contentUrl: Option<string>,
    content: Option<CardContent>)

  /** One chat message or event; every field may be missing on an inbound one. */
  datatype Activity = Activity(
    activityType: Option<string>,
    textFormat: Option<string>,
    text: Option<string>,
    from: Option<Account>,
    attachments: Option<seq<Attachment>>)

  /** `m.from.id === 'DirectLineClient'`, for an activity whose `from` is present. */
  predicate IsSelfSent(a: Activity) {
    a.from.Some? && a.from.value.id == Some(SelfId)
  }

  /** What the client does, in the order it does it. */
  datatype Event =
    | Log(line: string)                                  // console.log of one line
    | ClearLine                                          // clearLine() then cursorTo(0)
    | Prompt                                             // writes 'Command> '
    | OpenViewer(target: Option<string>)                 // open(url) in an external viewer
    | Post(conversationId: string, activity: Activity)  // Conversations_PostActivity
    | Exit                                               // process.exit()

  /** Output written while rendering an activity: printed lines and viewer launches only. */
  predicate IsRendering(e: Event) {
    e.Log? || e.OpenViewer?
  }

  /** The events a computation emitted and, if it threw, the exception that stopped it. */
  datatype Output = Output(events: seq<Event>, fault: Option<Fault>)

  const Silent: Output := Output([], None)

  function Emit(e: Event): Output {
    Output([e], None)
  }

  /** Runs `a` and then, unless `a` threw, `b`. */
  function Then(a: Output, b: Output): Output {
    if a.fault.Some? then a else Output(a.events + b.events, b.fault)
  }

  lemma ThenAssociative(a: Output, b: Output, c: Output)
    ensures Then(Then(a, b), c) == Then(a, Then(b, c))
  {
  }

  /** `xs.forEach(f)`: each element in order, stopping at the first exception. */
  function ForEach<T>(xs: seq<T>, f: T -> Output): (r: Output)
    ensures (forall x :: x in xs ==> f(x).fault.None?) <==> r.fault.None?
    ensures (forall x :: x in xs ==> f(x) == Silent) <==> r == Silent
    ensures (forall x :: x in xs ==> forall e :: e in f(x).events ==> IsRendering(e)) ==>
              forall e :: e in r.events ==> IsRendering(e)
    decreases |xs|
  {
    if xs == [] then Silent else Then(f(xs[0]), ForEach(xs[1..], f))
  }

  /** forEach over a concatenation is forEach over each part in turn. */
  lemma {:induction false} ForEachAppend<T>(xs: seq<T>, ys: seq<T>, f: T -> Output)
    ensures ForEach(xs + ys, f) == Then(ForEach(xs, f), ForEach(ys, f))
    decreases |xs|
  {
    if xs == [] {
      assert xs + ys == ys;
    } else {
      assert (xs + ys)[1..] == xs[1..] + ys;
      ForEachAppend(xs[1..], ys, f);
      ThenAssociative(f(xs[0]), ForEach(xs[1..], f), ForEach(ys, f));
    }
  }

  /** An element whose rendering does nothing can be dropped from a forEach. */
  lemma SilentElementInvisible<T>(xs: seq<T>, x: T, ys: seq<T>, f: T -> Output)
    requires f(x) == Silent
    ensures ForEach(xs + [x] + ys, f) == ForEach(xs + ys, f)
  {
    var a := ForEach(xs, f);
    assert ForEach([x], f) == Silent by {
      assert [x][1..] == [];
    }
    ForEachAppend(xs, [x], f);
    assert ForEach(xs + [x], f) == a;
    ForEachAppend(xs + [x], ys, f);
    ForEachAppend(xs, ys, f);
  }
}
