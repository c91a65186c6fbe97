/** The listener on standard input: each chunk typed at the `Command> ` prompt
    is ignored, ends the session, or is posted to the conversation. */
module ConsoleInput {
  import opened JsRuntime
  import opened Activities
  import Rendering

  /** `input.toLowerCase() === 'exit'`. No character other than the ASCII
      letters lower-cases to `e`, `x`, `i` or `t`, so lower-casing the letters
      A to Z is enough for this comparison. */
  predicate IsExitWord(t: string) {
    |t| == 4 && AsciiLower(t) == "exit"
  }

  /** The exit command in any mix of upper and lower case, and nothing else. */
  lemma ExitSpellings(t: string)
    ensures IsExitWord(t) <==>
              && |t| == 4
              && (t[0] == 'e' || t[0] == 'E')
              && (t[1] == 'x' || t[1] == 'X')
              && (t[2] == 'i' || t[2] == 'I')
              && (t[3] == 't' || t[3] == 'T')
  {
    if |t| == 4 {
      var l := AsciiLower(t);
      assert l[0] == LowerAscii(t[0]) && l[1] == LowerAscii(t[1]);
      assert l[2] == LowerAscii(t[2]) && l[3] == LowerAscii(t[3]);
      if IsExitWord(t) {
        assert l[0] == 'e' && l[1] == 'x' && l[2] == 'i' && l[3] == 't';
      } else {
        assert l != "exit";
      }
    }
  }

  /** The activity record posted for a line of input. */
  function Outbound(text: string): Activity {
    Activity(
      activityType := Some("message"),
      textFormat := Some("plain"),
      text := Some(text),
      from := Some(Account(Some(SelfId), Some(SelfId))),
      attachments := None)
  }

  /** Posting `text` sends a plain-text message from the client's own account. */
  predicate IsOwnMessage(a: Activity, text: string) {
    && a.activityType == Some("message")
    && a.textFormat == Some("plain")
    && a.text == Some(text)
    && a.from == Some(Account(Some(SelfId), Some(SelfId)))
    && a.attachments == None
  }

  /** The 'data' listener on standard input, for one chunk decoded to a string:
      the chunk is trimmed; an empty result does nothing, the exit command ends
      the process, and anything else is posted as one message followed by a
      fresh prompt. */
  function OnInput(conversationId: string, chunk: string): (r: seq<Event>)
    ensures r == [] <==> AllSpace(chunk)
    ensures r == [Exit] <==> IsExitWord(Trim(chunk))
    ensures Exit in r ==> r == [Exit]
    ensures |r| == 2 <==> !AllSpace(chunk) && !IsExitWord(Trim(chunk))
    ensures |r| == 2 ==>
              && r[0].Post?
              && r[0].conversationId == conversationId
              && IsOwnMessage(r[0].activity, Trim(chunk))
              && r[1] == Prompt
    ensures forall i :: 0 <= i < |r| && r[i].Post? ==> i == 0
  {
    var input := Trim(chunk);
    TrimEmptyIffAllSpace(chunk);
    if input == "" then []
    else if IsExitWord(input) then [Exit]
    else [Post(conversationId, Outbound(input)), Prompt]
  }

  /** Blanks around the exit command, in any case, still end the session. */
  lemma ExitDespiteSpacing(conversationId: string, before: string, word: string, after: string)
    requires AllSpace(before) && AllSpace(after) && IsExitWord(word)
    ensures OnInput(conversationId, before + word + after) == [Exit]
  {
    var s := before + word + after;
    ExitSpellings(word);
    assert SpacedAt(word, s, |before|);
    TrimUnique(s, word);
  }

  /** Whatever surrounds a message with blanks, exactly the message is posted. */
  lemma PostsTrimmedText(conversationId: string, before: string, text: string, after: string)
    requires AllSpace(before) && AllSpace(after)
    requires text != [] && Trimmed(text) && !IsExitWord(text)
    ensures OnInput(conversationId, before + text + after)
         == [Post(conversationId, Outbound(text)), Prompt]
  {
    var s := before + text + after;
    assert SpacedAt(text, s, |before|);
    TrimUnique(s, text);
  }

  /** What the client posts is its own, so when the relay echoes it back on
      the stream it is never printed. */
  lemma OwnPostsNeverShown(conversationId: string, chunk: string, xs: seq<Activity>, ys: seq<Activity>)
    ensures forall e :: e in OnInput(conversationId, chunk) && e.Post? ==>
              Rendering.PrintMessages(Some(xs + [e.activity] + ys)) == Rendering.PrintMessages(Some(xs + ys))
  {
    var r := OnInput(conversationId, chunk);
    if |r| == 2 {
      assert IsSelfSent(r[0].activity);
      Rendering.EchoInvisible(xs, r[0].activity, ys);
    }
  }

  /** Typing "hello" posts it to the conversation. */
  lemma HelloIsPosted()
    ensures OnInput("c1", "hello\n") == [Post("c1", Outbound("hello")), Prompt]
  {
    assert AllSpace("\n");
    assert AllSpace([]);
    assert "hello\n" == [] + "hello" + "\n";
    assert AsciiLower("hello") != "exit" by {
      assert AsciiLower("hello")[0] == 'h';
    }
    PostsTrimmedText("c1", [], "hello", "\n");
  }

  /** Typing " ExIt " ends the session without posting anything. */
  lemma MixedCaseExit()
    ensures OnInput("c1", " ExIt ") == [Exit]
  {
    assert " ExIt " == " " + "ExIt" + " ";
    ExitSpellings("ExIt");
    ExitDespiteSpacing("c1", " ", "ExIt", " ");
  }
}
