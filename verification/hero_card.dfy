/** The text layout of a hero card: a bordered block with the title and the body
    text centred in a 70-column interior. */
module HeroCards {
  import opened JsRuntime
  import opened Activities

  /** The width of the card interior. */
  const Width: int := 70

  /** `s` consists of blanks only. */
  predicate Blank(s: string) {
    forall i :: 0 <= i < |s| ==> s[i] == ' '
  }

  /** `line` is `content` with equally many blanks on either side. */
  predicate Centred(line: string, content: string) {
    && |content| <= |line|
    && (|line| - |content|) % 2 == 0
    && var p := (|line| - |content|) / 2;
       && line[p..p + |content|] == content
       && Blank(line[..p])
       && Blank(line[p + |content|..])
  }

  /** The length `contentLine` gives a content of length `n` that fits: the
      interior width when the leftover is even, one less when it is odd, and the
      content alone when it overflows the interior by one. */
  function CentredLength(n: nat): int {
    if n <= Width then (if n % 2 == 0 then Width else Width - 1) else n
  }

  /** `repeat` of the number `k / 2` repeats `k / 2` truncated toward zero times. */
  lemma HalfCount(k: int)
    ensures ToInteger(k as real / 2.0) == if k >= 0 then k / 2 else -((-k) / 2)
  {
    var x := k as real / 2.0;
    var n := ToInteger(x);
    if k >= 0 {
      assert n as real <= x < n as real + 1.0;
      assert 2 * n <= k < 2 * n + 2;
    } else {
      assert n as real - 1.0 < x <= n as real;
      assert 2 * n - 2 < k <= 2 * n;
    }
  }

  /** `contentLine(content)`: pads both sides with `' '.repeat((70 - content.length) / 2)`. */
  function ContentLine(content: string): (r: Result<string>)
    ensures r.Ok? <==> |content| <= Width + 1
    ensures r.Err? ==> r.fault == RangeError
    ensures r.Ok? ==> Centred(r.value, content) && |r.value| == CentredLength(|content|)
  {
    var count := (Width - |content|) as real / 2.0;
    HalfCount(Width - |content|);
    // Both sides call `repeat` with the same count, so they agree.
    var pad := Repeat(' ', count);
    if pad.Err? then Err(pad.fault)
    else
      var line := pad.value + content + pad.value;
      assert line[|pad.value|..|pad.value| + |content|] == content;
      assert line[..|pad.value|] == pad.value;
      assert line[|pad.value| + |content|..] == pad.value;
      Ok(line)
  }

  /** The field is present and short enough for `contentLine` not to throw. */
  predicate Fits(field: Option<string>) {
    field.Some? && |field.value| <= Width + 1
  }

  /** `line` is `*`, then `content` centred, then `*`. */
  predicate Framed(line: string, content: string) {
    |line| >= 2 && line[0] == '*' && line[|line| - 1] == '*' && Centred(line[1..|line| - 1], content)
  }

  /** `'*' + contentLine(field) + '*'`; reading the length of a missing field throws. */
  function FramedLine(field: Option<string>): (r: Result<string>)
    ensures r.Ok? <==> Fits(field)
    ensures field.None? ==> r == Err(TypeError)
    ensures Fits(field) ==> Framed(r.value, field.value) && |r.value| == CentredLength(|field.value|) + 2
  {
    match field
    case None => Err(TypeError)
    case Some(s) =>
      var inner := ContentLine(s);
      if inner.Err? then Err(inner.fault)
      else
        var line := "*" + inner.value + "*";
        assert line[1..|line| - 1] == inner.value;
        Ok(line)
  }

  predicate IsTopBorder(line: string) {
    |line| == Width + 2 && line[0] == '/' && forall i :: 1 <= i < |line| ==> line[i] == '*'
  }

  predicate IsSpacer(line: string) {
    |line| == Width + 2 && line[0] == '*' && line[|line| - 1] == '*' && Blank(line[1..|line| - 1])
  }

  predicate IsBottomBorder(line: string) {
    |line| == Width + 2 && line[|line| - 1] == '/' && forall i :: 0 <= i < |line| - 1 ==> line[i] == '*'
  }

  /** `renderHeroCard(attachment)`: five lines, or the lines printed before
      reading the title or the text threw. */
  function RenderHeroCard(att: Attachment): (r: Output)
    ensures forall e :: e in r.events ==> e.Log?
    ensures r.fault.None? <==> att.content.Some? && Fits(att.content.value.title) && Fits(att.content.value.text)
    ensures r.fault.None? ==> |r.events| == 5
    ensures r.fault.Some? ==> |r.events| == 1 || |r.events| == 3
    ensures |r.events| == 1 <==> att.content.None? || !Fits(att.content.value.title)
    ensures r.fault == Some(RangeError) <==>
              att.content.Some? &&
              var c := att.content.value;
              c.title.Some? && (!Fits(c.title) || (c.text.Some? && !Fits(c.text)))
  {
    var top := "/" + Fill('*', Width + 1);
    var spacer := "*" + Fill(' ', Width) + "*";
    var bottom := Fill('*', Width + 1) + "/";
    assert spacer[1..|spacer| - 1] == Fill(' ', Width);
    match att.content
    case None => Output([Log(top)], Some(TypeError))
    case Some(card) =>
      var title := FramedLine(card.title);
      if title.Err? then Output([Log(top)], Some(title.fault))
      else
        var text := FramedLine(card.text);
        if text.Err? then Output([Log(top), Log(title.value), Log(spacer)], Some(text.fault))
        else Output([Log(top), Log(title.value), Log(spacer), Log(text.value), Log(bottom)], None)
  }

  /** The lines of a hero card: the borders and the blank middle line are fixed,
      the title and the text are framed and centred. */
  lemma HeroCardLayout(att: Attachment)
    ensures var r := RenderHeroCard(att);
      && IsTopBorder(r.events[0].line)
      && (|r.events| >= 3 ==> Framed(r.events[1].line, att.content.value.title.value))
      && (|r.events| >= 3 ==> |r.events[1].line| == CentredLength(|att.content.value.title.value|) + 2)
      && (|r.events| >= 3 ==> IsSpacer(r.events[2].line))
      && (|r.events| == 5 ==> Framed(r.events[3].line, att.content.value.text.value))
      && (|r.events| == 5 ==> |r.events[3].line| == CentredLength(|att.content.value.text.value|) + 2)
      && (|r.events| == 5 ==> IsBottomBorder(r.events[4].line))
  {
    var r := RenderHeroCard(att);
    var top := "/" + Fill('*', Width + 1);
    var spacer := "*" + Fill(' ', Width) + "*";
    assert spacer[1..|spacer| - 1] == Fill(' ', Width);
    assert r.events[0].line == top;
    if |r.events| >= 3 {
      var card := att.content.value;
      assert r.events[1].line == FramedLine(card.title).value;
      assert r.events[2].line == spacer;
      if |r.events| == 5 {
        assert r.events[3].line == FramedLine(card.text).value;
        assert r.events[4].line == Fill('*', Width + 1) + "/";
      }
    }
  }

  /** The odd-leftover quirk: a three-character content comes out 69 wide. */
  lemma ContentLineOfThree()
    ensures ContentLine("ABC") == Ok(Fill(' ', 33) + "ABC" + Fill(' ', 33))
  {
    HalfCount(67);
  }

  /** A card titled "Hi" with body "Body". */
  lemma HiBodyCard()
    ensures RenderHeroCard(Attachment(Some(HeroCardType), None, Some(CardContent(Some("Hi"), Some("Body")))))
         == Output([
              Log("/" + Fill('*', 71)),
              Log("*" + Fill(' ', 34) + "Hi" + Fill(' ', 34) + "*"),
              Log("*" + Fill(' ', 70) + "*"),
              Log("*" + Fill(' ', 33) + "Body" + Fill(' ', 33) + "*"),
              Log(Fill('*', 71) + "/")], None)
  {
    assert ContentLine("Hi") == Ok(Fill(' ', 34) + "Hi" + Fill(' ', 34)) by {
      HalfCount(68);
    }
    assert ContentLine("Body") == Ok(Fill(' ', 33) + "Body" + Fill(' ', 33)) by {
      HalfCount(66);
    }
    var p34, p33 := Fill(' ', 34), Fill(' ', 33);
    assert "*" + (p34 + "Hi" + p34) + "*" == "*" + p34 + "Hi" + p34 + "*";
    assert "*" + (p33 + "Body" + p33) + "*" == "*" + p33 + "Body" + p33 + "*";
  }
}
