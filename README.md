# Interactive Prompt Builder — a verified model

This project models the two pieces of logic in the Interactive Prompt Builder:

- **The wizard's session** (`app.py`). This is a Streamlit page script that runs from the top on every user interaction. It keeps its state in the session: the current step (1, 2 or 3), the goal, the style, the clarifying questions, the answers dict, the generated prompt, the prompt history and two display toggles.
  - Step 1 asks the completion service for clarifying questions.
  - Step 2 collects an answer per question, where the "Let GPT Answer" box overrides the typed text.
  - Step 3 asks the service for the final prompt and appends it to the history.
  - "Start Over" returns to step 1 but keeps the style and the history.
- **The CAPTURE template** (`capture_formula.py`). `build_prompt` fills a fixed seven-line template from a dictionary and strips the result.

The Dafny modules:

- `Text` (Text.dfy): the Python string operations the code relies on. It covers `str.strip()` and `str.rstrip()` over the full `str.isspace()` character set, `str.upper()` for ASCII letters, and `str.split(sep)` and `sep.join(parts)` for a one-character separator. `Split` and `Join` are proved inverse to each other.
- `OrderedDict` (OrderedDict.dfy): a Python `dict` from strings to strings. It is a table of values plus the keys in insertion order. Assigning to an existing key keeps its place; a new key goes at the end.
- `App` (App.dfy):
  - the pure guards and renderings of `app.py`: the blank-goal guard, the "NONE" test, the answers rendering, the history preview and the feedback guard;
  - the class `Session`, with one method per block of the script that reads or writes the session. `RunScript` is one complete run of the page.
- `Capture` (Capture.dfy): `build_prompt`.

The completion service is a parameter: `Reply` is either the text the service returned or `ServiceError`. Widget values are parameters as well, one `Widgets` record per run. A block can end in three ways, reported as a `Flow`:
- it runs to its end (`Proceed`);
- it calls `st.rerun()` (`Rerun`), which ends the run; the next run is a new `RunScript` call;
- a failed service call raises (`Raised`). Every assignment that uses the reply comes after the call, so a failure leaves everything the reply would have set unchanged. The step-1 block copies the goal and the style from the widgets *before* its call, so a failed step-1 call still leaves those two copied.

The `Session.Valid()` invariant holds in every state. It says:
- the step is 1, 2 or 3;
- every answer key is one of the current questions, listed once;
- past step 1 the style is one of the six options;
- at step 1 the questions, answers and generated prompt are empty.

Some behaviour is modelled as the code has it, where a reader of the interface might expect something else:

- One might expect only the non-empty lines of the reply to become questions. `content.split("\n")` keeps blank lines, and an empty reply gives one empty question (`Text.Split`, `App.BlankLineKept`).
- One might expect one history entry per generated prompt. The step-3 block calls the service and appends to the history on **every** run while the step is 3. This includes the run in which "Start Over" is clicked, because the button is read only after the append (`App.Session.Step3`, `App.Session.RunScript`).
- One might expect the "NONE" path to clear the questions. It does not assign `questions`. The invariant shows they are already empty at step 1, so they stay empty (`App.Session.Step1`).
- One might expect the answers to be stored only when the form is submitted. The step-2 loop writes the answers dict on every run of step 2 (`App.Session.Step2`).

## Model

| member | source | states |
|---|---|---|
| Text.Strip | app.py:136 | the result has no whitespace at either end; it is empty exactly when the input is all whitespace; it is the slice of the input after the leading whitespace, and everything outside it is whitespace |
| Text.RStrip | capture_formula.py:12 | the result is a prefix of the input, everything after it is whitespace, and it does not end in whitespace |
| Text.RStripConcat | capture_formula.py:10-12 | right-stripping `a + b` reaches into `a` only when `b` is all whitespace |
| Text.StripAnchored | capture_formula.py:2-12 | stripping whitespace followed by a text that starts with a non-space only strips the right end |
| Text.Upper | app.py:137 | upper-casing keeps the length; `Text.UpperEqualsCapitals` characterises the comparison the source makes with it |
| Text.UpperEqualsCapitals | app.py:137 | `s.upper()` equals an all-capitals word exactly when each character of `s` is that capital or its lower-case letter |
| Text.Split | app.py:140 | `split` gives at least one piece, no piece holds the separator, and joining the pieces with the separator gives the input back |
| Text.SplitJoin | app.py:140 | splitting the join of separator-free pieces gives those pieces back, in order, empty ones included |
| Text.SplitSingle | app.py:140 | a reply without a newline becomes exactly one question |
| Text.Join | app.py:167 | the join of one or more parts begins with the first part; `Text.JoinAppend` and `Text.SplitJoin` characterise the rest |
| Text.JoinAppend | app.py:167 | joining one more part adds one separator, and only when there was a part before |
| OrderedDict.Get | app.py:154 | a well-formed dict has a value for `k` exactly when `k` is among its keys |
| OrderedDict.Put | app.py:154 | after `d[k] = v`, `k` holds `v` and every other key holds what it held before; the key order is kept, or `k` is appended when new, so no key is duplicated |
| OrderedDict.Items | app.py:167 | `items()` lists one entry per key, in key order, each with the value stored under that key |
| OrderedDict.PutItems | app.py:154 | assigning a new key adds exactly one entry, at the end, and leaves the others as they were |
| OrderedDict.PutPut | app.py:154-157 | assigning a key twice leaves the same dict as the second assignment alone |
| App.IsBlank | app.py:116 | the goal is refused exactly when every character of it is whitespace |
| App.FeedbackPosts | app.py:222-225 | the feedback is sent exactly when the message has a non-whitespace character |
| App.IsNoneMarker | app.py:137 | the reply means "no questions" exactly when it is four letters N, O, N, E, each in either case |
| App.FillAnswers | app.py:149-157 | after the first `n` questions are written, the `n`-th question holds its answer; `App.FillAnswersValid`, `App.FillAnswersKeys`, `App.FillAnswersOrder`, `App.FillAnswersGet` and `App.FillAnswersUntouched` characterise the rest |
| App.FillAnswersValid | app.py:149-157 | filling the form keeps every key listed once, with a value for each |
| App.FillAnswersKeys | app.py:149-157 | after filling, the keys with a value are the old ones plus the questions written |
| App.FillAnswersOrder | app.py:149-157 | starting from `{}` with questions that are pairwise different, the dict stays well formed and its keys are the questions written, in question order; after the whole loop they are exactly the questions |
| App.FillAnswersWithin | app.py:149-157 | filling the form keeps the answers keyed by the questions only, with no key twice |
| App.FillAnswersGet | app.py:149-157 | a question's stored answer is its typed text, or "Let GPT Answer" if its box was ticked, taken from the question's last occurrence |
| App.FillAnswersUntouched | app.py:149-157 | a key that is not among the questions keeps its old value |
| App.RenderAnswers | app.py:167 | the rendering is empty exactly when the dict is empty, which is what the final request shows after the "NONE" path; `App.RenderAnswersAppend` and `App.RenderAnswersLines` give its lines |
| App.RenderAnswersAppend | app.py:167 | a new answer adds exactly one line at the end of the rendering, after a newline only when a line was there before |
| App.RenderAnswersLines | app.py:167 | for a non-empty dict in which nothing holds a newline, the rendering splits into exactly one `- q: a` line per answer, in the dict's order |
| App.Preview | app.py:88 | the preview keeps the first 100 characters; when it cuts, it is 103 long and ends in "..."; it equals the prompt exactly when nothing is cut, or when the cut-off part was itself "..." |
| App.BlankLineKept | app.py:140 | two questions separated by an empty line become three questions, the middle one empty |
| App.Session.constructor | app.py:70-78 | a new session is at step 1 with empty goal, style, questions, answers, prompt and history, both toggles off, and the invariant holding |
| App.Session.ToggleHistory | app.py:81-83 | the history button flips the history display, but only when there is some history |
| App.Session.Step1 | app.py:112-142 | the goal and style are copied from the widgets; the service is asked exactly on Continue with a non-blank goal; otherwise, or on a failure, step and questions do not change; a "NONE" reply goes to step 3 with the questions still empty; any other reply goes to step 2 with the stripped reply split into lines as the questions |
| App.Session.AnswerQuestion | app.py:153-157 | one question's widgets assign its answer: the ticked box wins over the typed text |
| App.Session.FillForm | app.py:149-157 | the loop leaves the answers dict as the in-order assignments of all questions make it |
| App.Session.Step2 | app.py:145-161 | the answers become the filled form and stay keyed by the questions; submitting moves to step 3 and reruns, otherwise the step stays 2 |
| App.Session.StartOver | app.py:201-206 | back to step 1 with empty goal, questions, answers and prompt; style and history unchanged |
| App.Session.Step3 | app.py:164-207 | a failed call changes nothing; otherwise the stripped reply is appended to the history and, without Start Over, becomes the generated prompt at step 3; with Start Over, the session is reset to step 1 and reruns |
| App.Session.ToggleFeedback | app.py:211-212 | the feedback button flips the feedback display |
| App.Session.RunBlock | app.py:111-207 | the `if`/`elif` chain on the step runs the one block of the current step and keeps the invariant. It asks the service exactly at step 3, or at step 1 on Continue with a non-blank goal. The history grows by the stripped reply exactly when the step was 3 and the call succeeded, and is unchanged otherwise. Step 1 copies goal and style and leaves the answers and prompt alone; it reruns after every call, moving to step 3 on "NONE" and to step 2 with the split reply otherwise, and leaves step and questions alone without a call. Step 2 fills the answers from the widgets and moves to step 3 and reruns exactly on submit. Step 3 changes nothing on a failure; on success it either keeps step 3 with the stripped reply as the prompt, or on Start Over resets to step 1 and reruns |
| App.Session.RunScript | app.py:80-212 | one run of the page: the history toggle, then the step block as `App.Session.RunBlock` states it, then the feedback toggle. The history display flips exactly when there was history and its button was pressed. The feedback display flips exactly when the step block neither reran nor raised and the feedback button was pressed. The service call, the history, the step, the questions and the flow follow the step block's clauses per starting step, and at step 2 so do the answers; the style changes only at step 1 |
| Capture.Lookup | capture_formula.py:4-10 | `inputs.get(key)` formatted into the f-string: the value, or "None" for a missing key. It carries no contract of its own; `Capture.TemplateLabels` and `Capture.OtherKeysIgnored` state what it contributes to the prompt |
| Capture.Template | capture_formula.py:2-11 | the f-string before stripping is at least two characters long and opens and closes with a newline, the ones `Capture.BuildPrompt` strips away |
| Capture.BuildPrompt | capture_formula.py:12 | the prompt has no whitespace at either end |
| Capture.BuildPromptShape | capture_formula.py:2-12 | the prompt is the header and six field lines exactly as written, then the examples line with only the trailing whitespace of its value removed (and the space after the colon too if nothing is left) |
| Capture.PromptHeader | capture_formula.py:2-3 | the prompt begins with "Create a prompt using the CAPTURE formula:" and has no whitespace at either end |
| Capture.PromptLines | capture_formula.py:2-12 | when no value holds a newline, the prompt's lines are the header and then exactly seven field lines, in template order |
| Capture.TemplateLabels | capture_formula.py:4-10 | line k+1 of the template is `- <label>: <value>` for the k-th of Context, Audience, Purpose, Tone, Use case, Relevance, Examples, with the value of the matching key, or "None" when the key is missing |
| Capture.OtherKeysIgnored | capture_formula.py:4-10 | two dictionaries that agree on the seven keys give the same prompt |

## Left out

- Streamlit rendering, CSS and HTML, spinners, the page header and the display of the history, the prompt and the feedback form. Widget values are inputs of each run.
- The OpenAI client and the instruction texts sent to it. The service is a parameter: the text it returned, or a failure. Of the step-3 request, only the rendering of the answers (`RenderAnswers`) is modelled.
- Reading the logo and its base64 encoding, loading `.env`, the PDF export with its font check and "Prompt N:" labels, and the download buttons. These are file I/O and foreign libraries.
- The HTTP POST of the feedback and its status handling: network I/O. Only the blank-message guard is modelled, and the name and email fields are not.
- The "Let GPT Answer all questions" checkbox only sets the default of each text input. The value the input returns is a parameter (`typed`), so the checkbox adds nothing to the model.
- Streamlit rejects two widgets with the same label or key. That is library behaviour outside this source, so with duplicate questions the model goes on filling, and the last occurrence wins.
- Text.Upper: upper-cases ASCII letters only, whereas Python's `str.upper()` covers all of Unicode; `App.IsNoneMarker` inherits this.
- App.Session.RunScript: restates only the clauses of `App.Session.RunBlock` listed in its row. The goal, the generated prompt, and the answers outside step 2 are stated by `App.Session.RunBlock`, which `RunScript` calls with nothing in between that touches them.
- Several runs of the page in sequence are not modelled as one operation. Each user interaction is one `App.Session.RunScript` call, and the caller chooses the order.

