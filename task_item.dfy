/**
 * One row of the to-do list (the `TasksItem` component).
 *
 * The row owns two pieces of local state, the editing flag and the draft
 * title, and reports what the user does to its parent through three
 * callbacks: `toggleTaskDone`, `removeTask` and `editTask`.  Here the
 * callbacks are recorded, in order, in the row's `calls` log.
 *
 * The rendered affordances (marker, text field, edit/cancel icon, remove
 * button) are a pure function of the task and the row state, `View`; a user
 * gesture reaches a handler only through an affordance that is shown and
 * enabled, which `Step` states as a pure transition and `TasksItem.Press`
 * carries out on the object.
 */
module TaskItem {

  /** A to-do record. */
  datatype Task = Task(id: int, title: string, done: bool)

  /** A call the row makes into its parent. */
  datatype Call =
    | ToggleTaskDone(id: int)
    | RemoveTask(id: int)
    | EditTask(taskId: int, taskNewTitle: string)
  {
    /** The task id the call is about. */
    function TargetId(): int {
      match this
      case ToggleTaskDone(id) => id
      case RemoveTask(id) => id
      case EditTask(taskId, _) => taskId
    }
  }

  /** The row's local state: the editing flag and the draft title. */
  datatype RowState = RowState(isEditing: bool, titleEdited: string)

  /** The state a freshly mounted row starts in. */
  function Initial(task: Task): RowState {
    RowState(false, task.title)
  }

  /** What the row shows and which of its affordances respond. */
  datatype RowView = RowView(
    markerDone: bool,       // the marker is drawn filled
    checkShown: bool,       // the check glyph is drawn inside the marker
    textValue: string,      // the text the title field displays
    textStruck: bool,       // the title is drawn struck through
    textEditable: bool,     // the title field accepts typing and submit
    cancelIconShown: bool,  // the "x" icon is shown
    editIconShown: bool,    // the pencil icon is shown
    removeEnabled: bool,    // the trash button responds to a press
    removeDimmed: bool      // the trash icon is drawn dimmed
  )

  /**
   * The rendered row.  What each affordance does when used is stated by
   * `AffordancesGate`; here, how the affordances agree with each other.
   */
  function View(task: Task, st: RowState): (v: RowView)
    // the filled marker, the check glyph and the strike-through come together
    ensures v.checkShown == v.markerDone == v.textStruck
    // exactly one of the edit and cancel icons is shown
    ensures v.editIconShown != v.cancelIconShown
    // the field is editable exactly while the cancel icon shows and remove is off
    ensures v.textEditable == v.cancelIconShown == !v.removeEnabled
    // remove is dimmed exactly when it is disabled
    ensures v.removeDimmed <==> !v.removeEnabled
  {
    RowView(
      markerDone := task.done,
      checkShown := task.done,
      textValue := st.titleEdited,
      textStruck := task.done,
      textEditable := st.isEditing,
      cancelIconShown := st.isEditing,
      editIconShown := !st.isEditing,
      removeEnabled := !st.isEditing,
      removeDimmed := st.isEditing)
  }

  /** What the user can do to a row. */
  datatype Gesture =
    | PressRow             // press on the row body (marker or title)
    | PressEditIcon
    | PressCancelIcon
    | PressRemove
    | TypeText(text: string)
    | SubmitText

  /** The row state after a gesture, and the calls the gesture made. */
  datatype Transition = Transition(next: RowState, emitted: seq<Call>)

  /**
   * One gesture.  A gesture on an affordance that is hidden, disabled or
   * not editable reaches no handler and changes nothing.
   */
  function Step(task: Task, st: RowState, g: Gesture): (r: Transition)
    ensures |r.emitted| <= 1
    ensures forall c :: c in r.emitted ==> c.TargetId() == task.id
    // the row toggle works in both modes
    ensures r.emitted == [ToggleTaskDone(task.id)] <==> g == PressRow
    // remove fires only when not editing
    ensures r.emitted == [RemoveTask(task.id)] <==> g == PressRemove && !st.isEditing
    // submitting while editing hands the current draft to the parent
    ensures r.emitted == [EditTask(task.id, st.titleEdited)] <==> g == SubmitText && st.isEditing
    ensures g == SubmitText && st.isEditing ==> r.next == st.(isEditing := false)
    ensures g == PressEditIcon && !st.isEditing ==> r.next == st.(isEditing := true) && r.emitted == []
    ensures g == PressCancelIcon && st.isEditing ==> r.next == Initial(task) && r.emitted == []
    // typing changes only the draft, and only while editing
    ensures g.TypeText? ==> r.next.isEditing == st.isEditing && r.emitted == []
    ensures g.TypeText? ==> r.next.titleEdited == (if st.isEditing then g.text else st.titleEdited)
    // the draft changes only by typing or by cancelling
    ensures r.next.titleEdited != st.titleEdited ==>
              (g.TypeText? && st.isEditing) || (g == PressCancelIcon && r.next.titleEdited == task.title)
    // a row press or a remove press leaves the row state as it was
    ensures g == PressRow || g == PressRemove ==> r.next == st
    // a hidden icon, a disabled remove or a read-only field does nothing
    ensures g == PressRemove && st.isEditing ==> r == Transition(st, [])
    ensures g == PressEditIcon && st.isEditing ==> r == Transition(st, [])
    ensures g == PressCancelIcon && !st.isEditing ==> r == Transition(st, [])
    ensures (g.TypeText? || g == SubmitText) && !st.isEditing ==> r == Transition(st, [])
  {
    var v := View(task, st);
    match g
    case PressRow =>
      Transition(st, [ToggleTaskDone(task.id)])
    case PressEditIcon =>
      if v.editIconShown then Transition(st.(isEditing := true), []) else Transition(st, [])
    case PressCancelIcon =>
      if v.cancelIconShown then Transition(RowState(false, task.title), []) else Transition(st, [])
    case PressRemove =>
      if v.removeEnabled then Transition(st, [RemoveTask(task.id)]) else Transition(st, [])
    case TypeText(text) =>
      if v.textEditable then Transition(st.(titleEdited := text), []) else Transition(st, [])
    case SubmitText =>
      if v.textEditable then Transition(st.(isEditing := false), [EditTask(task.id, st.titleEdited)])
      else Transition(st, [])
  }

  /**
   * Each affordance reaches its handler exactly when the row renders it
   * shown or enabled, and otherwise the gesture changes nothing.
   */
  lemma AffordancesGate(task: Task, st: RowState, g: Gesture)
    ensures var v := View(task, st);
            var r := Step(task, st, g);
            // the row body toggles in both modes
            (g == PressRow ==> r == Transition(st, [ToggleTaskDone(task.id)])) &&
            // remove
            (g == PressRemove ==>
               (r.emitted == [RemoveTask(task.id)] <==> v.removeEnabled) &&
               (!v.removeEnabled ==> r == Transition(st, [])) &&
               r.next == st) &&
            // the text field: typing shows the typed text, submit sends the shown text
            ((g.TypeText? || g == SubmitText) && !v.textEditable ==> r == Transition(st, [])) &&
            (g == SubmitText ==> (r == Transition(st, []) <==> !v.textEditable)) &&
            (g.TypeText? && v.textEditable ==>
               r.emitted == [] && View(task, r.next).textValue == g.text && View(task, r.next).textEditable) &&
            (g == SubmitText && v.textEditable ==>
               r.emitted == [EditTask(task.id, v.textValue)] && !View(task, r.next).textEditable &&
               View(task, r.next).textValue == v.textValue) &&
            // the edit icon
            (g == PressEditIcon ==> (r == Transition(st, []) <==> !v.editIconShown)) &&
            (g == PressEditIcon && v.editIconShown ==>
               r.emitted == [] && View(task, r.next).cancelIconShown && View(task, r.next).textEditable &&
               !View(task, r.next).removeEnabled && View(task, r.next).textValue == v.textValue) &&
            // the cancel icon
            (g == PressCancelIcon ==> (r == Transition(st, []) <==> !v.cancelIconShown)) &&
            (g == PressCancelIcon && v.cancelIconShown ==>
               r.emitted == [] && View(task, r.next).editIconShown && View(task, r.next).removeEnabled &&
               View(task, r.next).textValue == task.title)
  {
  }

  /**
   * Whatever the row's local state, its marker, check glyph and
   * strike-through show the `done` flag of the task it renders.
   */
  lemma MarkerShowsDone(task: Task, st: RowState)
    ensures var v := View(task, st);
            v.checkShown == v.markerDone == v.textStruck == task.done
  {
  }

  /** A sequence of gestures, applied in order. */
  function Run(task: Task, st: RowState, gs: seq<Gesture>): (r: Transition)
    ensures |r.emitted| <= |gs|
    ensures forall c :: c in r.emitted ==> c.TargetId() == task.id
    decreases |gs|
  {
    if gs == [] then Transition(st, [])
    else
      var first := Step(task, st, gs[0]);
      var rest := Run(task, first.next, gs[1..]);
      Transition(rest.next, first.emitted + rest.emitted)
  }

  /** Running `a` then `b` is running `a + b`. */
  lemma {:induction false} RunAppend(task: Task, st: RowState, a: seq<Gesture>, b: seq<Gesture>)
    ensures var ra := Run(task, st, a);
            var rb := Run(task, ra.next, b);
            Run(task, st, a + b) == Transition(rb.next, ra.emitted + rb.emitted)
    decreases |a|
  {
    if a == [] {
      assert a + b == b;
    } else {
      assert (a + b)[0] == a[0];
      assert (a + b)[1..] == a[1..] + b;
      RunAppend(task, Step(task, st, a[0]).next, a[1..], b);
    }
  }

  /** True when every gesture is typing. */
  predicate AllTyping(gs: seq<Gesture>) {
    forall i :: 0 <= i < |gs| ==> gs[i].TypeText?
  }

  /** The text the draft holds after typing `typed`, starting from `draft`. */
  function LastTyped(draft: string, typed: seq<Gesture>): string
    requires AllTyping(typed)
  {
    if typed == [] then draft else typed[|typed| - 1].text
  }

  /** Typing while editing keeps editing, emits nothing and leaves the last text as draft. */
  lemma {:induction false} TypingWhileEditing(task: Task, st: RowState, typed: seq<Gesture>)
    requires st.isEditing && AllTyping(typed)
    ensures Run(task, st, typed) == Transition(RowState(true, LastTyped(st.titleEdited, typed)), [])
    decreases |typed|
  {
    if typed != [] {
      var next := Step(task, st, typed[0]).next;
      TypingWhileEditing(task, next, typed[1..]);
      if |typed| > 1 {
        assert typed[1..][|typed[1..]| - 1] == typed[|typed| - 1];
      }
    }
  }

  /**
   * Start editing, type anything, cancel: the row is back in its initial
   * state and nothing reached the parent.
   */
  lemma CancelDiscardsTyping(task: Task, st: RowState, typed: seq<Gesture>)
    requires AllTyping(typed)
    ensures Run(task, st, [PressEditIcon] + typed + [PressCancelIcon]) == Transition(Initial(task), [])
  {
    var editing := Step(task, st, PressEditIcon).next;
    assert editing.isEditing;
    TypingWhileEditing(task, editing, typed);
    RunAppend(task, st, [PressEditIcon], typed);
    RunAppend(task, st, [PressEditIcon] + typed, [PressCancelIcon]);
  }

  /**
   * Start editing, type, submit: exactly one `editTask` call carrying the
   * last typed text (or the old draft when nothing was typed), and the row
   * leaves editing mode keeping that text as its draft.
   */
  lemma SubmitSendsDraft(task: Task, st: RowState, typed: seq<Gesture>)
    requires AllTyping(typed)
    ensures var d := LastTyped(st.titleEdited, typed);
            Run(task, st, [PressEditIcon] + typed + [SubmitText]) ==
            Transition(RowState(false, d), [EditTask(task.id, d)])
  {
    var editing := Step(task, st, PressEditIcon).next;
    assert editing.isEditing && editing.titleEdited == st.titleEdited;
    TypingWhileEditing(task, editing, typed);
    RunAppend(task, st, [PressEditIcon], typed);
    RunAppend(task, st, [PressEditIcon] + typed, [SubmitText]);
  }

  /** Without typing, a row whose draft is the committed title keeps it so. */
  lemma {:induction false} DraftStaysTitleWithoutTyping(task: Task, st: RowState, gs: seq<Gesture>)
    requires st.titleEdited == task.title
    requires forall i :: 0 <= i < |gs| ==> !gs[i].TypeText?
    ensures Run(task, st, gs).next.titleEdited == task.title
    decreases |gs|
  {
    if gs != [] {
      DraftStaysTitleWithoutTyping(task, Step(task, st, gs[0]).next, gs[1..]);
    }
  }

  /** Number of row presses among the gestures. */
  function RowPresses(gs: seq<Gesture>): nat {
    if gs == [] then 0 else (if gs[0] == PressRow then 1 else 0) + RowPresses(gs[1..])
  }

  /** Number of `toggleTaskDone` calls in a log. */
  function Toggles(calls: seq<Call>): nat {
    if calls == [] then 0 else (if calls[0].ToggleTaskDone? then 1 else 0) + Toggles(calls[1..])
  }

  lemma {:induction false} TogglesAppend(a: seq<Call>, b: seq<Call>)
    ensures Toggles(a + b) == Toggles(a) + Toggles(b)
    decreases |a|
  {
    if a == [] {
      assert a + b == b;
    } else {
      assert (a + b)[1..] == a[1..] + b;
      TogglesAppend(a[1..], b);
    }
  }

  /** Every row press, in either mode, makes exactly one `toggleTaskDone` call, and nothing else does. */
  lemma {:induction false} OneTogglePerRowPress(task: Task, st: RowState, gs: seq<Gesture>)
    ensures Toggles(Run(task, st, gs).emitted) == RowPresses(gs)
    decreases |gs|
  {
    if gs != [] {
      var first := Step(task, st, gs[0]);
      OneTogglePerRowPress(task, first.next, gs[1..]);
      TogglesAppend(first.emitted, Run(task, first.next, gs[1..]).emitted);
      assert Toggles(first.emitted) == (if gs[0] == PressRow then 1 else 0) by {
        if first.emitted != [] {
          assert first.emitted == [first.emitted[0]];
          assert first.emitted[0].ToggleTaskDone? ==> first.emitted == [ToggleTaskDone(task.id)];
        }
      }
    }
  }

  /** The mounted row: local state plus the log of calls made to the parent. */
  class TasksItem {
    const task: Task
    var isEditing: bool
    var titleEdited: string
    ghost var calls: seq<Call>

    constructor (task: Task)
      ensures this.task == task
      ensures !isEditing && titleEdited == task.title
      ensures calls == []
    {
      this.task := task;
      isEditing := false;
      titleEdited := task.title;
      calls := [];
    }

    function State(): RowState
      reads this
    {
      RowState(isEditing, titleEdited)
    }

    method HandleStartEditing()
      modifies this
      ensures isEditing
      ensures titleEdited == old(titleEdited) && calls == old(calls)
    {
      isEditing := true;
    }

    method HandleCancelEditing()
      modifies this
      ensures !isEditing && titleEdited == task.title
      ensures calls == old(calls)
    {
      titleEdited := task.title;
      isEditing := false;
    }

    method HandleSubmitEditing()
      modifies this
      ensures !isEditing && titleEdited == old(titleEdited)
      ensures calls == old(calls) + [EditTask(task.id, old(titleEdited))]
    {
      isEditing := true;
      calls := calls + [EditTask(task.id, titleEdited)];
      isEditing := false;
    }

    /** The text field's change handler: it replaces the draft. */
    method OnChangeText(text: string)
      modifies this
      ensures titleEdited == text
      ensures isEditing == old(isEditing) && calls == old(calls)
    {
      titleEdited := text;
    }

    /** A gesture, routed through the affordances the row currently renders. */
    method Press(g: Gesture)
      modifies this
      ensures State() == Step(task, old(State()), g).next
      ensures calls == old(calls) + Step(task, old(State()), g).emitted
    {
      var view := View(task, State());
      match g
      case PressRow =>
        calls := calls + [ToggleTaskDone(task.id)];
      case PressEditIcon =>
        if view.editIconShown { HandleStartEditing(); }
      case PressCancelIcon =>
        if view.cancelIconShown { HandleCancelEditing(); }
      case PressRemove =>
        if view.removeEnabled { calls := calls + [RemoveTask(task.id)]; }
      case TypeText(text) =>
        if view.textEditable { OnChangeText(text); }
      case SubmitText =>
        if view.textEditable { HandleSubmitEditing(); }
    }
  }
}
