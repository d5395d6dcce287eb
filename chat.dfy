/** The tutor chat of components/ChatInterface.tsx. `handleSend` is split at
    its `await`: `BeginSend` runs the guard, appends the user's message,
    clears the input and raises the loading flag, and returns what the two
    gateway calls are given; `CompleteSend` takes how those calls settled.
    The reply and the grammar analysis are parameters, and so is every
    `Date.now()` reading. */
module ChatInterface {
  import opened Types
  import opened JsString
  import Progress
  import App

  /** What `chatWithTutor` receives of each earlier message. */
  datatype Turn = Turn(role: Role, text: string)

  /** The two gateway results, once both calls have succeeded. */
  datatype TutorReply = TutorReply(response: string, analysis: string)

  /** The marker that means "no correction needed". */
  const ExcellentMarker: string := "Excellent"

  /** `messages.map(m => ({ role: m.role, text: m.text }))`. */
  function Transcript(messages: seq<ChatMessage>): (r: seq<Turn>)
    ensures |r| == |messages|
    ensures forall k :: 0 <= k < |messages| ==> r[k] == Turn(messages[k].role, messages[k].text)
  {
    if messages == [] then []
    else [Turn(messages[0].role, messages[0].text)] + Transcript(messages[1..])
  }

  /** `analysis.includes("Excellent") ? undefined : analysis`: the correction
      is absent exactly when the marker occurs somewhere in the analysis
      (case-sensitively), and otherwise is the analysis word for word,
      the empty analysis included. */
  function GrammarCorrection(analysis: string): (r: Option<string>)
    ensures r.None? <==> exists i :: OccursAt(analysis, ExcellentMarker, i)
    ensures r.Some? ==> r.value == analysis
  {
    ContainsIff(analysis, ExcellentMarker);
    if Contains(analysis, ExcellentMarker) then None else Some(analysis)
  }

  /** The marker anywhere in the analysis, whatever surrounds it, drops the correction. */
  lemma GrammarCorrectionDropsMarker(pre: string, post: string)
    ensures GrammarCorrection(pre + ExcellentMarker + post) == None
  {
    var a := pre + ExcellentMarker + post;
    assert a[|pre|..|pre| + |ExcellentMarker|] == ExcellentMarker;
    assert OccursAt(a, ExcellentMarker, |pre|);
  }

  /** An analysis shorter than the marker, the empty one included, is kept verbatim. */
  lemma GrammarCorrectionKeepsShort(analysis: string)
    requires |analysis| < |ExcellentMarker|
    ensures GrammarCorrection(analysis) == Some(analysis)
  {
  }

  /** The marker is matched case-sensitively: an analysis with no capital 'E'
      (lower-case praise such as "excellent!" included) is kept verbatim. */
  lemma GrammarCorrectionIsCaseSensitive(analysis: string)
    requires 'E' !in analysis
    ensures GrammarCorrection(analysis) == Some(analysis)
  {
    forall i | 0 <= i && i + |ExcellentMarker| <= |analysis|
      ensures !OccursAt(analysis, ExcellentMarker, i)
    {
      assert analysis[i..i + |ExcellentMarker|][0] == analysis[i];
    }
  }

  /** `!input.trim() || isLoading`: the send is refused exactly when the input
      is all whitespace or a reply is awaited. */
  predicate Refused(input: string, isLoading: bool)
    ensures Refused(input, isLoading) <==> AllWhitespace(input) || isLoading
  {
    TrimEmptyIff(input);
    Trim(input) == [] || isLoading
  }

  /** The state of the chat component. */
  class Component {
    var messages: seq<ChatMessage>
    var input: string
    var isLoading: bool

    constructor ()
      ensures messages == [] && input == [] && !isLoading
    {
      messages := [];
      input := [];
      isLoading := false;
    }

    /** The text box's `onChange`. */
    method SetInput(text: string)
      modifies this`input
      ensures input == text
    {
      input := text;
    }

    /** `handleSend` up to the awaited calls. When the guard lets it through,
        exactly one user message carrying the raw, untrimmed input is appended,
        the input is cleared and the loading flag raised; the reply call gets
        the transcript as it was before that append and, separately, the raw
        input, which is also what the analysis call gets. */
    method BeginSend(now: int) returns (sent: bool, history: seq<Turn>, message: string)
      modifies this
      ensures sent <==> !(AllWhitespace(old(input)) || old(isLoading))
      ensures sent ==>
        messages == old(messages) + [ChatMessage(User, old(input), now, None)] &&
        input == [] && isLoading &&
        history == Transcript(old(messages)) && message == old(input)
      ensures !sent ==>
        messages == old(messages) && input == old(input) && isLoading == old(isLoading)
      ensures old(messages) <= messages
    {
      if Refused(input, isLoading) {
        return false, [], [];
      }
      var userMessage := ChatMessage(User, input, now, None);
      history := Transcript(messages);
      message := input;
      messages := messages + [userMessage];
      input := [];
      isLoading := true;
      sent := true;
    }

    /** `handleSend` after the awaited calls. Only when both succeeded is one
        tutor message appended (with the grammar correction chosen by
        `GrammarCorrection`) and 10 XP granted through the app's experience
        rule; if either failed neither happens. The loading flag drops in
        both cases, and the input is left alone. */
    method CompleteSend(outcome: Settled<TutorReply>, now: int, app: App.Component, today: string)
      modifies this`messages, this`isLoading, app`progress
      ensures !isLoading
      ensures outcome.Fulfilled? ==>
        messages == old(messages) + [ChatMessage(Model, outcome.value.response, now,
                                                 GrammarCorrection(outcome.value.analysis))] &&
        app.progress == Progress.Gain(old(app.progress), Progress.ChatXp, today)
      ensures outcome.Rejected? ==>
        messages == old(messages) && app.progress == old(app.progress)
      ensures old(messages) <= messages
    {
      match outcome {
        case Fulfilled(reply) =>
          var modelMessage := ChatMessage(Model, reply.response, now, GrammarCorrection(reply.analysis));
          messages := messages + [modelMessage];
          app.HandleExperienceGain(Progress.ChatXp, today);
        case Rejected =>
      }
      isLoading := false;
    }
  }

  /** An accepted send, a second press while the reply is awaited (refused),
      and a successful completion: the transcript gains the user message and
      then the tutor message, in that order, and the app gains exactly 10 XP. */
  method SendRoundTrip(chat: Component, app: App.Component, reply: TutorReply, t0: int, t1: int, today: string)
    requires !chat.isLoading && !AllWhitespace(chat.input)
    modifies chat, app
    ensures |chat.messages| == |old(chat.messages)| + 2
    ensures chat.messages[|chat.messages| - 2] == ChatMessage(User, old(chat.input), t0, None)
    ensures chat.messages[|chat.messages| - 1].role == Model
    ensures app.progress.experience == old(app.progress.experience) + 10
  {
    var sent, history, message := chat.BeginSend(t0);
    var again, _, _ := chat.BeginSend(t0);
    assert !again;
    chat.CompleteSend(Fulfilled(reply), t1, app, today);
  }
}
