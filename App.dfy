/**
  The prompt-builder wizard: a session that moves through three steps (state a goal
  and a style; answer the clarifying questions; receive the final prompt) and keeps
  the history of every prompt it was given.

  The page script runs from the top on every user interaction. Each block of it that
  reads or writes the session is one method of `Session`; the widget values of one run
  are its inputs. The text-completion service is a parameter: the reply it gave, or a
  failure. A failed call raises, which ends the script run where it stands; `st.rerun()`
  ends it too and starts a new one. Both are reported as a `Flow`.
 */
module App {
  import opened Text
  import opened OrderedDict

  /** The text stored for a question whose "Let GPT Answer" box is ticked. */
  const Sentinel := "Let GPT Answer"

  /** The options of the style select box. */
  const Styles: seq<string> := ["Creative", "Technical", "Conversational", "Concise", "Formal", "Friendly"]

  /** How many characters of a prompt the history list shows. */
  const PreviewLength := 100

  /** What the completion service did with one request. */
  datatype Reply = Completion(text: string) | ServiceError

  /** How a block of the script ended: it ran to its end, it called `st.rerun()`,
      or an exception (a failed service call) stopped the script. */
  datatype Flow = Proceed | Rerun | Raised

  // ---------------------------------------------------------------------------
  // Guards and renderings

  /** `not s.strip()`: the text the user entered is empty or only whitespace. */
  function IsBlank(s: string): (b: bool)
    ensures b <==> AllSpace(s)
  {
    Strip(s) == ""
  }

  /** The feedback form posts its message only when the message is not blank. */
  function FeedbackPosts(message: string): (post: bool)
    ensures post <==> exists i :: 0 <= i < |message| && !IsSpace(message[i])
  {
    !IsBlank(message)
  }

  /** `content.upper() == "NONE"`: the reply says no questions are needed, in any
      mix of upper and lower case. */
  function IsNoneMarker(content: string): (b: bool)
    ensures b <==>
      (|content| == 4 && content[0] in "nN" && content[1] in "oO" && content[2] in "nN" && content[3] in "eE")
  {
    UpperEqualsCapitals(content, "NONE");
    Upper(content) == "NONE"
  }

  /** The value a question's answer takes: the box overrides whatever was typed. */
  function AnswerFor(typed: string, ticked: bool): string {
    if ticked then Sentinel else typed
  }

  /** The answers dict after the step-2 form has written the first `n` questions of
      `qs`, with `typed[i]` in the text input and `ticked[i]` the "Let GPT Answer" box
      of question `i`: one assignment per question, in order. */
  function FillAnswers(d: Dict, qs: seq<string>, typed: seq<string>, ticked: seq<bool>, n: nat): (r: Dict)
    requires |typed| == |qs| && |ticked| == |qs| && n <= |qs|
    ensures n > 0 ==> Get(r, qs[n - 1]) == Some(AnswerFor(typed[n - 1], ticked[n - 1]))
  {
    if n == 0 then d
    else Put(FillAnswers(d, qs, typed, ticked, n - 1), qs[n - 1], AnswerFor(typed[n - 1], ticked[n - 1]))
  }

  /** Filling keeps the dict well formed: each key listed once, and only keys with a
      value listed. */
  lemma {:induction false} FillAnswersValid(d: Dict, qs: seq<string>, typed: seq<string>, ticked: seq<bool>, n: nat)
    requires |typed| == |qs| && |ticked| == |qs| && n <= |qs|
    requires Valid(d)
    ensures Valid(FillAnswers(d, qs, typed, ticked, n))
  {
    if n > 0 {
      FillAnswersValid(d, qs, typed, ticked, n - 1);
    }
  }

  /** The keys after filling are the old ones and the questions written. */
  lemma {:induction false} FillAnswersKeys(d: Dict, qs: seq<string>, typed: seq<string>, ticked: seq<bool>, n: nat)
    requires |typed| == |qs| && |ticked| == |qs| && n <= |qs|
    ensures forall k :: k in FillAnswers(d, qs, typed, ticked, n).values <==> k in d.values || exists i :: 0 <= i < n && qs[i] == k
  {
    if n > 0 {
      FillAnswersKeys(d, qs, typed, ticked, n - 1);
      forall k | k !in d.values && exists i :: 0 <= i < n - 1 && qs[i] == k
        ensures exists i :: 0 <= i < n && qs[i] == k
      {
        var i :| 0 <= i < n - 1 && qs[i] == k;
      }
    }
  }

  /** Starting from the empty dict with pairwise different questions, the keys are
      the questions written, in question order. */
  lemma {:induction false} FillAnswersOrder(qs: seq<string>, typed: seq<string>, ticked: seq<bool>, n: nat)
    requires |typed| == |qs| && |ticked| == |qs| && n <= |qs|
    requires Distinct(qs)
    ensures Valid(FillAnswers(Empty, qs, typed, ticked, n))
    ensures FillAnswers(Empty, qs, typed, ticked, n).keys == qs[..n]
    ensures n == |qs| ==> FillAnswers(Empty, qs, typed, ticked, n).keys == qs
  {
    if n > 0 {
      FillAnswersOrder(qs, typed, ticked, n - 1);
      PutNext(FillAnswers(Empty, qs, typed, ticked, n - 1), qs, n, AnswerFor(typed[n - 1], ticked[n - 1]));
    }
    assert qs[..|qs|] == qs;
  }

  /** Every key is one of the questions, and none is there twice. */
  ghost predicate AnswersWithin(d: Dict, qs: seq<string>) {
    Valid(d) && forall k :: k in d.keys ==> k in qs
  }

  /** Filling the form keeps the answers keyed by the questions. */
  lemma FillAnswersWithin(d: Dict, qs: seq<string>, typed: seq<string>, ticked: seq<bool>)
    requires |typed| == |qs| && |ticked| == |qs|
    requires AnswersWithin(d, qs)
    ensures AnswersWithin(FillAnswers(d, qs, typed, ticked, |qs|), qs)
  {
    FillAnswersValid(d, qs, typed, ticked, |qs|);
    FillAnswersKeys(d, qs, typed, ticked, |qs|);
  }

  /** A question's stored answer comes from its last occurrence among the questions
      written. */
  lemma {:induction false} FillAnswersGet(d: Dict, qs: seq<string>, typed: seq<string>, ticked: seq<bool>, n: nat, j: nat)
    requires |typed| == |qs| && |ticked| == |qs| && n <= |qs|
    requires j < n && forall i :: j < i < n ==> qs[i] != qs[j]
    ensures Get(FillAnswers(d, qs, typed, ticked, n), qs[j]) == Some(AnswerFor(typed[j], ticked[j]))
  {
    if j < n - 1 {
      FillAnswersGet(d, qs, typed, ticked, n - 1, j);
    }
  }

  /** Keys that are not among the questions written keep their old values. */
  lemma {:induction false} FillAnswersUntouched(d: Dict, qs: seq<string>, typed: seq<string>, ticked: seq<bool>, n: nat, k: string)
    requires |typed| == |qs| && |ticked| == |qs| && n <= |qs|
    requires forall i :: 0 <= i < n ==> qs[i] != k
    ensures Get(FillAnswers(d, qs, typed, ticked, n), k) == Get(d, k)
  {
    if n > 0 {
      FillAnswersUntouched(d, qs, typed, ticked, n - 1, k);
    }
  }

  /** `f"- {q}: {a}"`. */
  function AnswerLine(q: string, a: string): string {
    "- " + q + ": " + a
  }

  function AnswerLines(d: Dict): (lines: seq<string>)
    requires Valid(d)
    ensures |lines| == |d.keys|
  {
    var items := Items(d);
    seq(|items|, i requires 0 <= i < |items| => AnswerLine(items[i].0, items[i].1))
  }

  /** The answers as the final request shows them: one line per entry, in insertion
      order, joined by newlines. */
  function RenderAnswers(d: Dict): (r: string)
    requires Valid(d)
    ensures r == "" <==> d.keys == []
  {
    var lines := AnswerLines(d);
    assert lines != [] ==> |lines[0]| >= 2;
    Join(lines, '\n')
  }

  /** Answering a new question adds exactly one line at the end, with a newline only
      between lines (none before the first, none after the last). */
  lemma RenderAnswersAppend(d: Dict, q: string, a: string)
    requires Valid(d) && q !in d.keys
    ensures RenderAnswers(Put(d, q, a)) ==
      if d.keys == [] then AnswerLine(q, a) else RenderAnswers(d) + "\n" + AnswerLine(q, a)
  {
    PutItems(d, q, a);
    assert AnswerLines(Put(d, q, a)) == AnswerLines(d) + [AnswerLine(q, a)];
    JoinAppend(AnswerLines(d), AnswerLine(q, a), '\n');
  }

  /** When no question or answer holds a newline, the rendering splits back into one
      line per entry: line `i` is `"- " + q + ": " + a` for the `i`-th question `q` and
      its answer `a`. */
  lemma RenderAnswersLines(d: Dict)
    requires Valid(d) && d.keys != []
    requires forall k :: k in d.values ==> '\n' !in k && '\n' !in d.values[k]
    ensures var lines := Split(RenderAnswers(d), '\n');
      && |lines| == |d.keys|
      && forall i :: 0 <= i < |d.keys| ==> lines[i] == "- " + d.keys[i] + ": " + d.values[d.keys[i]]
  {
    var lines := AnswerLines(d);
    forall i | 0 <= i < |lines| ensures '\n' !in lines[i] {
      assert d.keys[i] in d.values;
      assert lines[i] == "- " + d.keys[i] + ": " + d.values[d.keys[i]];
    }
    SplitJoin(lines, '\n');
  }

  /** `prompt[:100] + ("..." if len(prompt) > 100 else "")`, the history list's preview:
      it keeps the first 100 characters, marks a cut with "...", and equals the prompt
      exactly when nothing was cut or the cut-off part was itself "...". */
  function Preview(p: string): (r: string)
    ensures var n := if |p| <= PreviewLength then |p| else PreviewLength;
      n <= |r| && r[..n] == p[..n]
    ensures |p| > PreviewLength ==> |r| == PreviewLength + 3 && r[PreviewLength..] == "..."
    ensures r == p <==> |p| <= PreviewLength || (|p| == PreviewLength + 3 && p[PreviewLength..] == "...")
  {
    if |p| > PreviewLength then
      var r := p[..PreviewLength] + "...";
      assert r[PreviewLength..] == "...";
      assert |p| == PreviewLength + 3 && p[PreviewLength..] == "..." ==> p == r by {
        if |p| == PreviewLength + 3 && p[PreviewLength..] == "..." {
          assert p == p[..PreviewLength] + p[PreviewLength..];
        }
      }
      r
    else
      p
  }

  /** Splitting keeps blank lines: two questions separated by an empty line give
      three questions, the middle one empty. */
  lemma BlankLineKept(q1: string, q2: string)
    requires '\n' !in q1 && '\n' !in q2
    ensures Split(q1 + "\n\n" + q2, '\n') == [q1, "", q2]
  {
    var qs := [q1, "", q2];
    assert qs[1..] == ["", q2] && qs[1..][1..] == [q2];
    assert Join(qs[1..], '\n') == "\n" + q2;
    assert Join(qs, '\n') == q1 + "\n\n" + q2;
    SplitJoin(qs, '\n');
  }

  // ---------------------------------------------------------------------------
  // The session

  /** The values the widgets hold in one run of the script. */
  datatype Widgets = Widgets(
    historyPressed: bool,
    goalText: string,
    styleChoice: string,
    continuePressed: bool,
    typed: seq<string>,
    ticked: seq<bool>,
    submitted: bool,
    startOverPressed: bool,
    feedbackPressed: bool)

  class Session {
    var step: int
    var goal: string
    var style: string
    var questions: seq<string>
    var answers: Dict
    var generatedPrompt: string
    var history: seq<string>
    var showHistory: bool
    var showFeedback: bool

    /** The step is 1, 2 or 3; every answer belongs to a current question and no
        question is answered twice; once past step 1 the style is one of the options;
        at step 1 nothing of the previous round is left but the style and the history. */
    ghost predicate Valid()
      reads this
    {
      && 1 <= step <= 3
      && AnswersWithin(answers, questions)
      && (step != 1 ==> style in Styles)
      && (step == 1 ==> questions == [] && answers == Empty && generatedPrompt == "")
    }

    /** The fields as a new session starts them. */
    constructor ()
      ensures Valid()
      ensures step == 1 && goal == "" && style == "" && questions == [] && answers == Empty
      ensures generatedPrompt == "" && history == [] && !showHistory && !showFeedback
    {
      step := 1;
      goal := "";
      style := "";
      questions := [];
      answers := Empty;
      generatedPrompt := "";
      history := [];
      showHistory := false;
      showFeedback := false;
    }

    /** The "View Prompt History" button, shown only once there is some history,
        flips whether the history is listed. */
    method ToggleHistory(pressed: bool)
      modifies this`showHistory
      ensures showHistory == if history != [] && pressed then !old(showHistory) else old(showHistory)
    {
      if history != [] && pressed {
        showHistory := !showHistory;
      }
    }

    /** Step 1: the goal and style widgets are copied into the session on every run.
        Continue with a non-blank goal asks the service for questions: a reply of
        "NONE" in any case goes straight to step 3, any other reply is split into
        lines that become the questions of step 2. A blank goal asks nothing; a failed
        call changes nothing but the goal and style. */
    method Step1(goalText: string, styleChoice: string, continuePressed: bool, reply: Reply)
      returns (consulted: bool, flow: Flow)
      requires Valid() && step == 1
      requires styleChoice in Styles
      modifies this`goal, this`style, this`step, this`questions
      ensures Valid()
      ensures goal == goalText && style == styleChoice
      ensures consulted <==> continuePressed && !IsBlank(goalText)
      ensures flow == if !consulted then Proceed else if reply.ServiceError? then Raised else Rerun
      ensures flow != Rerun ==> step == 1 && questions == old(questions)
      ensures flow == Rerun && IsNoneMarker(Strip(reply.text)) ==> step == 3 && questions == old(questions) == []
      ensures flow == Rerun && !IsNoneMarker(Strip(reply.text)) ==> step == 2 && questions == Split(Strip(reply.text), '\n')
    {
      goal := goalText;
      style := styleChoice;
      consulted := continuePressed && !IsBlank(goal);
      if !consulted {
        return false, Proceed;
      }
      if reply.ServiceError? {
        return consulted, Raised;
      }
      var content := Strip(reply.text);
      if IsNoneMarker(content) {
        step := 3;
      } else {
        questions := Split(content, '\n');
        step := 2;
      }
      flow := Rerun;
    }

    /** The form's widgets for one question: the text input writes the typed text,
        then a ticked box overwrites it with the sentinel. */
    method AnswerQuestion(q: string, typed: string, ticked: bool)
      modifies this`answers
      ensures answers == Put(old(answers), q, AnswerFor(typed, ticked))
    {
      answers := Put(answers, q, typed);
      if ticked {
        PutPut(old(answers), q, typed, Sentinel);
        answers := Put(answers, q, Sentinel);
      }
    }

    /** Step 2: on every run the form writes each question's answer into the dict,
        the typed text first and then the sentinel if its box is ticked; submitting
        moves on to step 3. */
    method Step2(typed: seq<string>, ticked: seq<bool>, submitted: bool) returns (flow: Flow)
      requires Valid() && step == 2
      requires |typed| == |questions| && |ticked| == |questions|
      modifies this`answers, this`step
      ensures Valid()
      ensures answers == FillAnswers(old(answers), questions, typed, ticked, |questions|)
      ensures step == (if submitted then 3 else 2)
      ensures flow == (if submitted then Rerun else Proceed)
    {
      FillForm(typed, ticked);
      FillAnswersWithin(old(answers), questions, typed, ticked);
      flow := Proceed;
      if submitted {
        step := 3;
        flow := Rerun;
      }
    }

    /** The form's loop over the questions, in order. */
    method FillForm(typed: seq<string>, ticked: seq<bool>)
      requires |typed| == |questions| && |ticked| == |questions|
      modifies this`answers
      ensures answers == FillAnswers(old(answers), questions, typed, ticked, |questions|)
    {
      var i := 0;
      while i < |questions|
        invariant 0 <= i <= |questions|
        invariant answers == FillAnswers(old(answers), questions, typed, ticked, i)
      {
        AnswerQuestion(questions[i], typed[i], ticked[i]);
        i := i + 1;
      }
    }

    /** The "Start Over" button: back to step 1 with no goal, questions, answers or
        prompt; the style and the history are kept. */
    method StartOver()
      requires Valid() && step == 3
      modifies this`step, this`goal, this`questions, this`answers, this`generatedPrompt
      ensures Valid()
      ensures step == 1 && goal == "" && questions == [] && answers == Empty && generatedPrompt == ""
      ensures style == old(style) && history == old(history)
    {
      step := 1;
      goal := "";
      questions := [];
      answers := Empty;
      generatedPrompt := "";
    }

    /** Step 3: every run asks the service for the final prompt, stores the trimmed
        reply and appends it to the history, and only then looks at "Start Over".
        A failed call changes nothing. */
    method Step3(reply: Reply, startOverPressed: bool) returns (flow: Flow)
      requires Valid() && step == 3
      modifies this`step, this`goal, this`questions, this`answers, this`generatedPrompt, this`history
      ensures Valid()
      ensures reply.ServiceError? ==> flow == Raised && unchanged(this)
      ensures reply.Completion? ==> history == old(history) + [Strip(reply.text)]
      ensures reply.Completion? && !startOverPressed ==>
        && flow == Proceed && step == 3 && generatedPrompt == Strip(reply.text)
        && goal == old(goal) && questions == old(questions) && answers == old(answers)
      ensures reply.Completion? && startOverPressed ==>
        && flow == Rerun && step == 1 && generatedPrompt == ""
        && goal == "" && questions == [] && answers == Empty
    {
      if reply.ServiceError? {
        return Raised;
      }
      var finalPrompt := Strip(reply.text);
      generatedPrompt := finalPrompt;
      history := history + [finalPrompt];
      flow := Proceed;
      if startOverPressed {
        StartOver();
        flow := Rerun;
      }
    }

    /** The "Send Feedback" button flips whether the feedback form is shown. */
    method ToggleFeedback(pressed: bool)
      modifies this`showFeedback
      ensures showFeedback == if pressed then !old(showFeedback) else old(showFeedback)
    {
      if pressed {
        showFeedback := !showFeedback;
      }
    }

    /** The block of the current step: the service is asked on every run at step 3,
        and at step 1 only by Continue with a non-blank goal. The history grows by the
        stripped reply on every successful run at step 3 and is never changed
        otherwise. */
    method RunBlock(ui: Widgets, reply: Reply) returns (consulted: bool, flow: Flow)
      requires Valid()
      requires ui.styleChoice in Styles
      requires step == 2 ==> |ui.typed| == |questions| && |ui.ticked| == |questions|
      modifies this`step, this`goal, this`style, this`questions, this`answers, this`generatedPrompt, this`history
      ensures Valid()
      ensures consulted <==> old(step) == 3 || (old(step) == 1 && ui.continuePressed && !IsBlank(ui.goalText))
      // the history
      ensures old(step) == 3 && reply.Completion? ==> history == old(history) + [Strip(reply.text)]
      ensures !(old(step) == 3 && reply.Completion?) ==> history == old(history)
      // step 1
      ensures old(step) == 1 ==>
        && goal == ui.goalText && style == ui.styleChoice
        && answers == old(answers) && generatedPrompt == old(generatedPrompt)
        && flow == (if !consulted then Proceed else if reply.ServiceError? then Raised else Rerun)
      ensures old(step) == 1 && flow != Rerun ==> step == 1 && questions == []
      ensures old(step) == 1 && flow == Rerun && IsNoneMarker(Strip(reply.text)) ==> step == 3 && questions == []
      ensures old(step) == 1 && flow == Rerun && !IsNoneMarker(Strip(reply.text)) ==>
        step == 2 && questions == Split(Strip(reply.text), '\n')
      // step 2
      ensures old(step) == 2 ==>
        && answers == FillAnswers(old(answers), old(questions), ui.typed, ui.ticked, |old(questions)|)
        && questions == old(questions) && goal == old(goal) && style == old(style)
        && generatedPrompt == old(generatedPrompt)
        && step == (if ui.submitted then 3 else 2) && flow == (if ui.submitted then Rerun else Proceed)
      // step 3
      ensures old(step) == 3 ==> style == old(style)
      ensures old(step) == 3 && reply.ServiceError? ==>
        && flow == Raised && step == 3 && goal == old(goal) && questions == old(questions)
        && answers == old(answers) && generatedPrompt == old(generatedPrompt)
      ensures old(step) == 3 && reply.Completion? && !ui.startOverPressed ==>
        && flow == Proceed && step == 3 && generatedPrompt == Strip(reply.text)
        && goal == old(goal) && questions == old(questions) && answers == old(answers)
      ensures old(step) == 3 && reply.Completion? && ui.startOverPressed ==>
        && flow == Rerun && step == 1 && generatedPrompt == ""
        && goal == "" && questions == [] && answers == Empty
    {
      if step == 1 {
        consulted, flow := Step1(ui.goalText, ui.styleChoice, ui.continuePressed, reply);
      } else if step == 2 {
        flow := Step2(ui.typed, ui.ticked, ui.submitted);
        consulted := false;
      } else {
        flow := Step3(reply, ui.startOverPressed);
        consulted := true;
      }
    }

    /** One run of the page script: the history button, then the block of the current
        step (`RunBlock`), then, when that block neither raised nor reran, the feedback
        button. */
    method RunScript(ui: Widgets, reply: Reply) returns (consulted: bool, flow: Flow)
      requires Valid()
      requires ui.styleChoice in Styles
      requires step == 2 ==> |ui.typed| == |questions| && |ui.ticked| == |questions|
      modifies this
      ensures Valid()
      ensures consulted <==> old(step) == 3 || (old(step) == 1 && ui.continuePressed && !IsBlank(ui.goalText))
      ensures showHistory == if old(history) != [] && ui.historyPressed then !old(showHistory) else old(showHistory)
      ensures showFeedback == if flow == Proceed && ui.feedbackPressed then !old(showFeedback) else old(showFeedback)
      ensures old(step) == 3 && reply.Completion? ==> history == old(history) + [Strip(reply.text)]
      ensures !(old(step) == 3 && reply.Completion?) ==> history == old(history)
      ensures old(step) == 1 ==>
        flow == (if !consulted then Proceed else if reply.ServiceError? then Raised else Rerun)
      ensures old(step) == 1 && flow != Rerun ==> step == 1 && questions == []
      ensures old(step) == 1 && flow == Rerun && IsNoneMarker(Strip(reply.text)) ==> step == 3 && questions == []
      ensures old(step) == 1 && flow == Rerun && !IsNoneMarker(Strip(reply.text)) ==>
        step == 2 && questions == Split(Strip(reply.text), '\n')
      ensures old(step) == 2 ==>
        && answers == FillAnswers(old(answers), old(questions), ui.typed, ui.ticked, |old(questions)|)
        && questions == old(questions)
        && step == (if ui.submitted then 3 else 2) && flow == (if ui.submitted then Rerun else Proceed)
      ensures old(step) == 3 ==>
        && flow == (if reply.ServiceError? then Raised else if ui.startOverPressed then Rerun else Proceed)
        && step == (if reply.Completion? && ui.startOverPressed then 1 else 3)
        && questions == (if reply.Completion? && ui.startOverPressed then [] else old(questions))
      ensures style == old(style) || old(step) == 1
    {
      ToggleHistory(ui.historyPressed);
      consulted, flow := RunBlock(ui, reply);
      if flow == Proceed {
        ToggleFeedback(ui.feedbackPressed);
      }
    }
  }
}
