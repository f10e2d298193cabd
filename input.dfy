/**
 * The form `Input` component: its focus/filled highlight state, changed by the
 * focus and blur handlers, and the container properties derived from its props.
 */
module Input {
  import opened Wrappers

  /** The component state `isFocused`, `isFilled`. */
  datatype FocusState = FocusState(isFocused: bool, isFilled: bool)

  /** The DOM events the component handles; a blur sees the input's current value. */
  datatype Event = Focus | Blur(currentValue: string)

  /** Both `useState` hooks start at `false`. */
  const Initial := FocusState(false, false)

  /** The effect of one handler on the state. */
  function Step(s: FocusState, e: Event): (t: FocusState)
    ensures e.Focus? ==> t.isFocused && t.isFilled == s.isFilled
    ensures e.Blur? ==> !t.isFocused && (t.isFilled <==> e.currentValue != "")
  {
    match e
    case Focus => s.(isFocused := true)
    case Blur(v) => FocusState(false, v != "")
  }

  /** The state after handling `events` in order, starting from `s`. */
  function Run(s: FocusState, events: seq<Event>): (r: FocusState)
    ensures r.isFocused <==> if events == [] then s.isFocused else events[|events| - 1].Focus?
    ensures (forall i :: 0 <= i < |events| ==> events[i].Focus?) ==> r.isFilled == s.isFilled
    decreases |events|
  {
    if events == [] then s else Run(Step(s, events[0]), events[1..])
  }

  /** The value seen by the most recent blur, if there was one. */
  function LastBlur(events: seq<Event>): (v: Option<string>)
    ensures v.None? <==> forall i :: 0 <= i < |events| ==> events[i].Focus?
    decreases |events|
  {
    if events == [] then None
    else match events[|events| - 1]
      case Blur(v) => Some(v)
      case Focus => LastBlur(events[..|events| - 1])
  }

  /** Handling one more event steps the state reached so far. */
  lemma {:induction false} RunSnoc(s: FocusState, events: seq<Event>, e: Event)
    ensures Run(s, events + [e]) == Step(Run(s, events), e)
    decreases |events|
  {
    if events != [] {
      assert (events + [e])[1..] == events[1..] + [e];
      RunSnoc(Step(s, events[0]), events[1..], e);
    }
  }

  /**
   * The field is highlighted as filled exactly when the latest blur saw a
   * non-empty value; focus events never change it.
   */
  lemma {:induction false} FilledIsLastBlur(events: seq<Event>)
    ensures Run(Initial, events).isFilled <==> (LastBlur(events).Some? && LastBlur(events).value != "")
    decreases |events|
  {
    if events != [] {
      var init := events[..|events| - 1];
      assert events == init + [events[|events| - 1]];
      RunSnoc(Initial, init, events[|events| - 1]);
      FilledIsLastBlur(init);
    }
  }

  /** What `useField` is told: the field registers its DOM input's `value` property. */
  datatype Registration = Registration(name: string, path: string)

  /** The registration made on mount. */
  function Register(fieldName: string): (r: Registration)
    ensures r.name == fieldName && r.path == "value"
  {
    Registration(fieldName, "value")
  }

  /** The container's test id. */
  function ContainerTestId(name: string): (id: string)
    ensures |id| == |name| + 6 && id[..6] == "input-" && id[6..] == name
  {
    "input-" + name
  }

  /** Distinct field names give distinct container test ids. */
  lemma TestIdsDistinct(a: string, b: string)
    requires a != b
    ensures ContainerTestId(a) != ContainerTestId(b)
  {
    assert ContainerTestId(a)[6..] == a;
  }

  /** The rendered container: its styling flags, test id and the error marker's title. */
  datatype ContainerView = ContainerView(
    hasError: bool, isFocused: bool, isFilled: bool, testId: string, errorTitle: Option<string>)

  /** The container for field `name` whose form error is `error` (`""` when none). */
  function View(name: string, error: string, s: FocusState): (v: ContainerView)
    ensures v.hasError <==> error != ""
    ensures v.errorTitle.Some? <==> v.hasError
    ensures v.errorTitle.Some? ==> v.errorTitle.value == error
    ensures v.isFocused == s.isFocused && v.isFilled == s.isFilled
    ensures v.testId == ContainerTestId(name)
  {
    var hasError := error != "";
    ContainerView(hasError, s.isFocused, s.isFilled, ContainerTestId(name),
                  if hasError then Some(error) else None)
  }

  /** One mounted `Input`: its props and its two state hooks. */
  class InputField {
    const name: string
    const fieldName: string
    /** The registration made with the form on mount. */
    const registration: Registration
    var isFocused: bool
    var isFilled: bool

    function State(): FocusState
      reads this
    {
      FocusState(isFocused, isFilled)
    }

    /** Mounting: neither focused nor filled. */
    constructor (name: string, fieldName: string)
      ensures this.name == name && this.fieldName == fieldName
      ensures registration == Register(fieldName)
      ensures State() == Initial
    {
      this.name := name;
      this.fieldName := fieldName;
      registration := Register(fieldName);
      isFocused := false;
      isFilled := false;
    }

    /** `handleInputFocus`: focused, filled unchanged. */
    method HandleInputFocus()
      modifies this
      ensures isFocused && isFilled == old(isFilled)
      ensures State() == Step(old(State()), Focus)
    {
      isFocused := true;
    }

    /** `handleInputBlur`: not focused, filled iff the input holds text. */
    method HandleInputBlur(currentValue: string)
      modifies this
      ensures !isFocused && (isFilled <==> currentValue != "")
      ensures State() == Step(old(State()), Blur(currentValue))
    {
      isFocused := false;
      isFilled := currentValue != "";
    }

    /** The container as currently rendered, given the form's error for this field. */
    function Render(error: string): (v: ContainerView)
      reads this
      ensures v.hasError <==> error != ""
      ensures v.errorTitle == if error != "" then Some(error) else None
      ensures v.isFocused == isFocused && v.isFilled == isFilled
      ensures v.testId == "input-" + name
    {
      View(name, error, State())
    }
  }
}
