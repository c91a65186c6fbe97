/** What the client prints for a batch of activities pushed on the stream:
    its own echoed messages are dropped, the rest are printed in order between
    a cleared input line and a fresh prompt. */
module Rendering {
  import opened JsRuntime
  import opened Activities
  import opened HeroCards

  /** The line printed before an image is opened; a missing URL prints as `undefined`. */
  function ImageNotice(url: Option<string>): string {
    "Opening the requested image " + (if url.Some? then url.value else "undefined")
  }

  /** One step of the attachment loop of `printMessage`: hero cards and PNG
      images produce output, every other content type is skipped. */
  function RenderAttachment(att: Attachment): (r: Output)
    ensures r == Silent <==> att.contentType != Some(HeroCardType) && att.contentType != Some(PngType)
    ensures r.fault.Some? ==> att.contentType == Some(HeroCardType)
    ensures att.contentType == Some(HeroCardType) ==> r == RenderHeroCard(att)
    ensures att.contentType == Some(PngType) ==>
              r == Output([Log(ImageNotice(att.contentUrl)), OpenViewer(att.contentUrl)], None)
    ensures forall e :: e in r.events ==> IsRendering(e)
  {
    if att.contentType == Some(HeroCardType) then RenderHeroCard(att)
    else if att.contentType == Some(PngType) then
      Output([Log(ImageNotice(att.contentUrl)), OpenViewer(att.contentUrl)], None)
    else Silent
  }

  /** The attachments of an activity; a missing list is skipped like an empty one. */
  function AttachmentsOf(a: Activity): seq<Attachment> {
    if a.attachments.Some? then a.attachments.value else []
  }

  /** `activity.text` is truthy: present and not the empty string. */
  predicate HasText(a: Activity) {
    a.text.Some? && a.text.value != ""
  }

  /** `printMessage(activity)`: the text on a line of its own when there is
      any, then every attachment in order. */
  function RenderActivity(a: Activity): (r: Output)
    ensures forall e :: e in r.events ==> IsRendering(e)
    ensures HasText(a) ==> |r.events| >= 1 && r.events[0] == Log(a.text.value)
    ensures var rest := ForEach(AttachmentsOf(a), RenderAttachment);
      && r.events == (if HasText(a) then [Log(a.text.value)] else []) + rest.events
      && r.fault == rest.fault
    ensures r == Silent <==>
              !HasText(a) && forall x :: x in AttachmentsOf(a) ==> RenderAttachment(x) == Silent
    ensures r.fault.Some? ==>
              exists x :: x in AttachmentsOf(a) && x.contentType == Some(HeroCardType)
  {
    var text := if HasText(a) then Emit(Log(a.text.value)) else Silent;
    var rest := ForEach(AttachmentsOf(a), RenderAttachment);
    Then(text, rest)
  }

  /** An attachment of a type the client does not handle leaves no trace. */
  lemma UnhandledAttachmentInvisible(a: Activity, xs: seq<Attachment>, x: Attachment, ys: seq<Attachment>)
    requires x.contentType != Some(HeroCardType) && x.contentType != Some(PngType)
    ensures RenderActivity(a.(attachments := Some(xs + [x] + ys)))
         == RenderActivity(a.(attachments := Some(xs + ys)))
  {
    SilentElementInvisible(xs, x, ys, RenderAttachment);
  }

  /** `activities.filter(m => m.from.id !== 'DirectLineClient')`; reading `id`
      of a missing `from` throws. */
  function SuppressEcho(acts: seq<Activity>): (r: Result<seq<Activity>>)
    ensures r.Ok? <==> forall a :: a in acts ==> a.from.Some?
    ensures r.Err? ==> r.fault == TypeError
    ensures r.Ok? ==> forall a :: a in r.value <==> a in acts && !IsSelfSent(a)
  {
    if acts == [] then Ok([])
    else if acts[0].from.None? then Err(TypeError)
    else
      var rest := SuppressEcho(acts[1..]);
      assert acts == [acts[0]] + acts[1..];
      if rest.Err? then rest
      else if IsSelfSent(acts[0]) then rest
      else Ok([acts[0]] + rest.value)
  }

  /** Each activity the client did not send survives as often as it occurs
      in the batch; the client's own never do. */
  lemma {:induction false} SuppressEchoCounts(acts: seq<Activity>)
    requires forall a :: a in acts ==> a.from.Some?
    ensures forall a :: multiset(SuppressEcho(acts).value)[a] ==
              if IsSelfSent(a) then 0 else multiset(acts)[a]
    decreases |acts|
  {
    if acts != [] {
      assert acts == [acts[0]] + acts[1..];
      SuppressEchoCounts(acts[1..]);
    }
  }

  /** Filtering keeps the survivors in their original order: the survivors of a
      concatenation are the survivors of each part, concatenated. */
  lemma {:induction false} SuppressEchoAppend(xs: seq<Activity>, ys: seq<Activity>)
    ensures SuppressEcho(xs + ys).Ok? <==> SuppressEcho(xs).Ok? && SuppressEcho(ys).Ok?
    ensures SuppressEcho(xs + ys).Ok? ==>
              SuppressEcho(xs + ys).value == SuppressEcho(xs).value + SuppressEcho(ys).value
    decreases |xs|
  {
    if xs == [] {
      assert xs + ys == ys;
    } else {
      var zs, head := xs + ys, xs[0];
      assert zs[0] == head && zs[1..] == xs[1..] + ys;
      SuppressEchoAppend(xs[1..], ys);
      var tail, rest, right := SuppressEcho(xs[1..]), SuppressEcho(zs[1..]), SuppressEcho(ys);
      if head.from.Some? && tail.Ok? && right.Ok? && !IsSelfSent(head) {
        assert rest.value == tail.value + right.value;
        assert [head] + (tail.value + right.value) == ([head] + tail.value) + right.value;
      }
    }
  }

  /** Some activity of the batch would reach the renderer. */
  predicate HasVisible(batch: Option<seq<Activity>>) {
    && batch.Some?
    && (forall a :: a in batch.value ==> a.from.Some?)
    && exists a :: a in batch.value && !IsSelfSent(a)
  }

  /** A batch whose `from` fields are all present, of which nobody but the client wrote. */
  predicate AllFromOthers(acts: seq<Activity>) {
    forall a :: a in acts ==> a.from.Some? && !IsSelfSent(a)
  }

  /** The events of `printMessages` for a batch in which something survives. */
  function Bracketed(rendered: Output): Output {
    Then(Then(Emit(ClearLine), rendered), Emit(Prompt))
  }

  lemma BracketedShape(body: Output)
    requires forall e :: e in body.events ==> IsRendering(e)
    ensures var r := Bracketed(body);
      && r.events != []
      && (forall e :: e in r.events ==> e == ClearLine || e == Prompt || IsRendering(e))
      && r.events[0] == ClearLine && ClearLine !in r.events[1..]
      && (r.fault.None? ==> r.events[|r.events| - 1] == Prompt && Prompt !in r.events[..|r.events| - 1])
      && (r.fault.Some? ==> Prompt !in r.events)
  {
    var r := Bracketed(body);
    if body.fault.None? {
      assert r.events == [ClearLine] + body.events + [Prompt];
      assert r.events[1..] == body.events + [Prompt];
      assert r.events[..|r.events| - 1] == [ClearLine] + body.events;
    } else {
      assert r.events == [ClearLine] + body.events;
      assert r.events[1..] == body.events;
    }
  }

  /** `printMessages(activities)`: nothing for a missing or empty batch or one
      made only of the client's own echoes; otherwise a cleared input line, the
      surviving activities in order, and the prompt again. */
  function PrintMessages(batch: Option<seq<Activity>>): (r: Output)
    ensures r.events == [] <==> !HasVisible(batch)
    ensures r.events == [] && r.fault.Some? <==>
              batch.Some? && exists a :: a in batch.value && a.from.None?
    ensures r.events == [] && r.fault.Some? ==> r.fault == Some(TypeError)
    ensures forall e :: e in r.events ==> e == ClearLine || e == Prompt || IsRendering(e)
    ensures r.events != [] ==> r.events[0] == ClearLine && ClearLine !in r.events[1..]
    ensures r.events != [] && r.fault.None? ==>
              r.events[|r.events| - 1] == Prompt && Prompt !in r.events[..|r.events| - 1]
    ensures r.fault.Some? ==> Prompt !in r.events
  {
    match batch
    case None => Silent
    case Some(acts) =>
      if |acts| == 0 then Silent
      else
        match SuppressEcho(acts)
        case Err(f) => Output([], Some(f))
        case Ok(others) =>
          if |others| == 0 then Silent
          else
            var body := ForEach(others, RenderActivity);
            assert others[0] in acts;
            BracketedShape(body);
            Bracketed(body)
  }

  /** Echo suppression: one of the client's own messages anywhere in a batch
      changes nothing that is printed. */
  lemma EchoInvisible(xs: seq<Activity>, x: Activity, ys: seq<Activity>)
    requires IsSelfSent(x)
    ensures PrintMessages(Some(xs + [x] + ys)) == PrintMessages(Some(xs + ys))
  {
    SuppressEchoAppend(xs + [x], ys);
    SuppressEchoAppend(xs, [x]);
    SuppressEchoAppend(xs, ys);
    assert SuppressEcho([x]) == Ok([]) by {
      assert [x][1..] == [];
    }
    if SuppressEcho(xs).Ok? {
      assert SuppressEcho(xs).value + [] == SuppressEcho(xs).value;
    }
  }

  /** A batch written only by others is printed in full and in order. */
  lemma {:induction false} OthersPrintedInOrder(acts: seq<Activity>)
    requires acts != [] && AllFromOthers(acts)
    ensures PrintMessages(Some(acts)) == Bracketed(ForEach(acts, RenderActivity))
  {
    SuppressEchoKeepsOthers(acts);
  }

  lemma {:induction false} SuppressEchoKeepsOthers(acts: seq<Activity>)
    requires AllFromOthers(acts)
    ensures SuppressEcho(acts) == Ok(acts)
    decreases |acts|
  {
    if acts != [] {
      assert acts[0] in acts;
      assert AllFromOthers(acts[1..]) by {
        forall a | a in acts[1..] ensures a in acts { }
      }
      SuppressEchoKeepsOthers(acts[1..]);
      assert [acts[0]] + acts[1..] == acts;
    }
  }
}
