/** The message composer of client/src/components/chat/MessageInput.tsx: the text
    being typed, the typing indicator with its one-second stop timer, and sending.
    The timer is an explicit `TimerFires` event; the `onTyping` and `onSendMessage`
    callbacks are the emitted `Emit` values, in call order. */
module TypingInput {

  // ---------------------------------------------------------------------------
  // String.prototype.trim

  /** The characters JavaScript's `trim` strips: WhiteSpace and LineTerminator. */
  predicate IsJsSpace(c: char)
  {
    || c == '\t' || c == '\n' || c == '\U{B}' || c == '\U{C}' || c == '\r' || c == ' '
    || c == '\U{A0}' || c == '\U{1680}' || ('\U{2000}' <= c <= '\U{200A}')
    || c == '\U{2028}' || c == '\U{2029}' || c == '\U{202F}' || c == '\U{205F}'
    || c == '\U{3000}' || c == '\U{FEFF}'
  }

  /** `s` without its leading white space. */
  function TrimStart(s: string): string
  {
    if s == [] || !IsJsSpace(s[0]) then s else TrimStart(s[1..])
  }

  /** `s` without its trailing white space. */
  function TrimEnd(s: string): string
  {
    if s == [] || !IsJsSpace(s[|s| - 1]) then s else TrimEnd(s[..|s| - 1])
  }

  function Trim(s: string): string
  {
    TrimEnd(TrimStart(s))
  }

  /** Stripping the front leaves the longest suffix that does not start with white space. */
  lemma {:induction false} TrimStartStrips(s: string)
    ensures var r := TrimStart(s);
      && |r| <= |s| && r == s[|s| - |r|..]
      && (forall k :: 0 <= k < |s| - |r| ==> IsJsSpace(s[k]))
      && (r != [] ==> !IsJsSpace(r[0]))
  {
    if s != [] && IsJsSpace(s[0]) {
      TrimStartStrips(s[1..]);
      var r := TrimStart(s[1..]);
      assert s[1..][|s[1..]| - |r|..] == s[|s| - |r|..];
      forall k | 0 <= k < |s| - |r| ensures IsJsSpace(s[k]) {
        if k > 0 {
          assert s[k] == s[1..][k - 1];
        }
      }
    }
  }

  /** Stripping the back leaves the longest prefix that does not end with white space. */
  lemma {:induction false} TrimEndStrips(s: string)
    ensures var r := TrimEnd(s);
      && |r| <= |s| && r == s[..|r|]
      && (forall k :: |r| <= k < |s| ==> IsJsSpace(s[k]))
      && (r != [] ==> !IsJsSpace(r[|r| - 1]))
  {
    if s != [] && IsJsSpace(s[|s| - 1]) {
      var init := s[..|s| - 1];
      TrimEndStrips(init);
      var r := TrimEnd(init);
      assert init[..|r|] == s[..|r|];
      forall k | |r| <= k < |s| ensures IsJsSpace(s[k]) {
        if k < |s| - 1 {
          assert s[k] == init[k];
        }
      }
    }
  }

  /** `trim` keeps a contiguous middle part of the text and strips only white space
      around it; what is left neither starts nor ends with white space. */
  lemma TrimIsStrippedMiddle(s: string)
    ensures var t := Trim(s);
      var i := |s| - |TrimStart(s)|;
      && 0 <= i && i + |t| <= |s| && t == s[i..i + |t|]
      && (forall k :: 0 <= k < i ==> IsJsSpace(s[k]))
      && (forall k :: i + |t| <= k < |s| ==> IsJsSpace(s[k]))
      && (t != [] ==> !IsJsSpace(t[0]) && !IsJsSpace(t[|t| - 1]))
  {
    var u := TrimStart(s);
    var t := TrimEnd(u);
    var i := |s| - |u|;
    TrimStartStrips(s);
    TrimEndStrips(u);
    assert u == s[i..];
    assert t == u[..|t|];
    assert s[i..i + |t|] == u[..|t|];
    forall k | i + |t| <= k < |s| ensures IsJsSpace(s[k]) {
      assert s[k] == u[k - i];
    }
    if t != [] {
      assert t[0] == u[0];
    }
  }

  /** The text trims to nothing exactly when it is all white space. */
  lemma TrimEmptyIffBlank(s: string)
    ensures Trim(s) == [] <==> forall k :: 0 <= k < |s| ==> IsJsSpace(s[k])
  {
    TrimIsStrippedMiddle(s);
    var t := Trim(s);
    var i := |s| - |TrimStart(s)|;
    if t != [] {
      assert s[i] == t[0];
    }
  }

  /** Trimming twice is trimming once. */
  lemma TrimIdempotent(s: string)
    ensures Trim(Trim(s)) == Trim(s)
  {
    TrimIsStrippedMiddle(s);
    var t := Trim(s);
    if t != [] {
      assert TrimStart(t) == t;
      assert TrimEnd(t) == t;
    }
  }

  // ---------------------------------------------------------------------------
  // The component as a state machine

  /** The callbacks the component calls. */
  datatype Emit = OnTyping(isTyping: bool) | OnSendMessage(content: string)

  /** `message`, `isTyping`, and whether `typingTimeoutRef` holds a timer that is
      neither cleared nor fired. */
  datatype InputState = InputState(message: string, isTyping: bool, timerArmed: bool)

  datatype InputEvent =
    | Change(value: string)               // handleInputChange
    | TimerFires                          // the stop-typing timeout elapses
    | SendClick                           // the send button
    | KeyPress(key: string, shift: bool)  // handleKeyPress

  datatype Reaction = Reaction(next: InputState, emits: seq<Emit>)

  const Initial: InputState := InputState("", false, false)

  /** The send button is disabled while the text trims to nothing. */
  predicate SendDisabled(message: string)
  {
    Trim(message) == ""
  }

  /** The send button is disabled exactly while the text is empty or all white space. */
  lemma SendDisabledIffBlank(message: string)
    ensures SendDisabled(message) <==> forall k :: 0 <= k < |message| ==> IsJsSpace(message[k])
  {
    TrimEmptyIffBlank(message);
  }

  /** `handleSend`. */
  function Send(s: InputState): Reaction
  {
    var t := Trim(s.message);
    if t == "" then Reaction(s, [])
    else Reaction(InputState("", false, false), [OnSendMessage(t)] + (if s.isTyping then [OnTyping(false)] else []))
  }

  function Step(s: InputState, e: InputEvent): Reaction
  {
    match e
    case Change(v) => Reaction(InputState(v, true, true), if s.isTyping then [] else [OnTyping(true)])
    case TimerFires =>
      if s.timerArmed then Reaction(s.(isTyping := false, timerArmed := false), [OnTyping(false)])
      else Reaction(s, [])
    case SendClick => if SendDisabled(s.message) then Reaction(s, []) else Send(s)
    case KeyPress(key, shift) => if key == "Enter" && !shift then Send(s) else Reaction(s, [])
  }

  /** The `onTyping` arguments among the emitted callbacks, in order. */
  function TypingFlags(es: seq<Emit>): seq<bool>
  {
    if es == [] then []
    else (if es[0].OnTyping? then [es[0].isTyping] else []) + TypingFlags(es[1..])
  }

  /** `flags` is `start, !start, start, ...`. */
  predicate Alternating(flags: seq<bool>, start: bool)
    decreases |flags|
  {
    flags == [] || (flags[0] == start && Alternating(flags[1..], !start))
  }

  /** A stop timer is pending exactly while the indicator is on. */
  predicate Consistent(s: InputState)
  {
    s.isTyping == s.timerArmed
  }

  function RunEmits(s: InputState, es: seq<InputEvent>): seq<Emit>
    decreases |es|
  {
    if es == [] then [] else Step(s, es[0]).emits + RunEmits(Step(s, es[0]).next, es[1..])
  }

  function RunState(s: InputState, es: seq<InputEvent>): InputState
    decreases |es|
  {
    if es == [] then s else RunState(Step(s, es[0]).next, es[1..])
  }

  lemma {:induction false} TypingFlagsAppend(a: seq<Emit>, b: seq<Emit>)
    ensures TypingFlags(a + b) == TypingFlags(a) + TypingFlags(b)
  {
    if a != [] {
      assert (a + b)[0] == a[0];
      assert (a + b)[1..] == a[1..] + b;
      TypingFlagsAppend(a[1..], b);
    } else {
      assert a + b == b;
    }
  }

  /** One reaction keeps the timer consistent with the indicator and calls
      `onTyping` exactly when the indicator flips, with its new value. */
  predicate CallsOnFlip(s: InputState, r: Reaction)
  {
    && Consistent(r.next)
    && TypingFlags(r.emits) == (if r.next.isTyping != s.isTyping then [r.next.isTyping] else [])
  }

  lemma SendUnfold(s: InputState, trimmed: string)
    requires trimmed == Trim(s.message)
    ensures Send(s) == if trimmed == "" then Reaction(s, [])
      else Reaction(InputState("", false, false), [OnSendMessage(trimmed)] + (if s.isTyping then [OnTyping(false)] else []))
  {
  }

  lemma SendCallsOnFlip(s: InputState)
    requires Consistent(s)
    ensures CallsOnFlip(s, Send(s))
  {
    var r := Send(s);
    if r.emits != [] {
      TypingFlagsAppend([r.emits[0]], r.emits[1..]);
      assert [r.emits[0]] + r.emits[1..] == r.emits;
      if s.isTyping {
        assert r.emits[1..][1..] == [];
      }
    }
  }

  lemma StepCallsOnFlip(s: InputState, e: InputEvent)
    requires Consistent(s)
    ensures CallsOnFlip(s, Step(s, e))
  {
    match e
    case Change(_) =>
      if !s.isTyping {
        assert [OnTyping(true)][1..] == [];
      }
    case TimerFires =>
      assert [OnTyping(false)][1..] == [];
    case SendClick =>
      SendCallsOnFlip(s);
    case KeyPress(_, _) =>
      SendCallsOnFlip(s);
  }

  /** Over any sequence of events, the `onTyping` calls alternate, the first being
      the opposite of the current indicator, and the last matching the indicator. */
  lemma {:induction false} RunAlternates(s: InputState, es: seq<InputEvent>)
    requires Consistent(s)
    ensures Alternating(TypingFlags(RunEmits(s, es)), !s.isTyping)
    ensures Consistent(RunState(s, es))
    ensures var flags := TypingFlags(RunEmits(s, es));
      RunState(s, es).isTyping == (if flags == [] then s.isTyping else flags[|flags| - 1])
    decreases |es|
  {
    if es != [] {
      var r := Step(s, es[0]);
      StepCallsOnFlip(s, es[0]);
      RunAlternates(r.next, es[1..]);
      TypingFlagsAppend(r.emits, RunEmits(r.next, es[1..]));
      var rest := TypingFlags(RunEmits(r.next, es[1..]));
      assert RunEmits(s, es) == r.emits + RunEmits(r.next, es[1..]);
      assert RunState(s, es) == RunState(r.next, es[1..]);
      if r.next.isTyping != s.isTyping {
        var flags := [r.next.isTyping] + rest;
        assert flags[1..] == rest;
        assert TypingFlags(RunEmits(s, es)) == flags;
        assert Alternating(flags, !s.isTyping);
      } else {
        assert TypingFlags(RunEmits(s, es)) == rest;
      }
    }
  }

  /** From the initial render the calls are `onTyping(true)`, `onTyping(false)`, ... */
  lemma FromInitialTrueFirst(es: seq<InputEvent>)
    ensures Alternating(TypingFlags(RunEmits(Initial, es)), true)
  {
    RunAlternates(Initial, es);
  }

  /** Sending with a blank text changes nothing and calls nothing; otherwise it
      passes the trimmed text first, clears the input, turns the indicator off
      (calling `onTyping(false)` only if it was on) and cancels the timer. */
  lemma SendBehaviour(s: InputState)
    ensures SendDisabled(s.message) ==> Send(s) == Reaction(s, [])
    ensures !SendDisabled(s.message) ==>
      var r := Send(s);
      && r.emits[0] == OnSendMessage(Trim(s.message))
      && r.next == InputState("", false, false)
      && TypingFlags(r.emits) == (if s.isTyping then [false] else [])
      && Trim(r.emits[0].content) == r.emits[0].content
      && r.emits[0].content != ""
  {
    if !SendDisabled(s.message) {
      TrimIdempotent(s.message);
      var r := Send(s);
      TypingFlagsAppend([r.emits[0]], r.emits[1..]);
      assert [r.emits[0]] + r.emits[1..] == r.emits;
      if s.isTyping {
        assert r.emits[1..][1..] == [];
      }
    }
  }

  /** Enter without Shift sends; any other key press, Shift+Enter included, does nothing. */
  lemma KeyPressSendsOnPlainEnter(s: InputState, key: string, shift: bool)
    ensures Step(s, KeyPress(key, shift)) == (if key == "Enter" && !shift then Send(s) else Reaction(s, []))
    ensures Step(s, KeyPress(key, shift)) == Step(s, SendClick) <==>
            (key == "Enter" && !shift) || SendDisabled(s.message)
  {
    if !SendDisabled(s.message) {
      SendBehaviour(s);
    }
  }

  /** A text change stores the value, turns the indicator on and (re)arms the timer,
      calling `onTyping(true)` only when the indicator was off; a firing timer turns
      it off with `onTyping(false)`. */
  lemma ChangeAndTimer(s: InputState, v: string)
    ensures Step(s, Change(v)).next == InputState(v, true, true)
    ensures TypingFlags(Step(s, Change(v)).emits) == (if s.isTyping then [] else [true])
    ensures s.timerArmed ==> Step(s, TimerFires) == Reaction(s.(isTyping := false, timerArmed := false), [OnTyping(false)])
  {
    if !s.isTyping {
      assert [OnTyping(true)][1..] == [];
    }
  }

  /** The component instance. `typingLog` records every `onTyping` argument so far. */
  class MessageInput {
    var message: string
    var isTyping: bool
    var timerArmed: bool
    ghost var typingLog: seq<bool>

    function State(): InputState
      reads this
    {
      InputState(message, isTyping, timerArmed)
    }

    /** The calls alternate starting with `true`, and the last one is the indicator. */
    ghost predicate Valid()
      reads this
    {
      && Consistent(State())
      && Alternating(typingLog, true)
      && isTyping == (typingLog != [] && typingLog[|typingLog| - 1])
    }

    constructor ()
      ensures Valid() && State() == Initial && typingLog == []
    {
      message := "";
      isTyping := false;
      timerArmed := false;
      typingLog := [];
    }

    /** `handleInputChange`. */
    method HandleInputChange(value: string) returns (emits: seq<Emit>)
      requires Valid()
      modifies this
      ensures Valid()
      ensures Step(old(State()), Change(value)) == Reaction(State(), emits)
      ensures typingLog == old(typingLog) + TypingFlags(emits)
    {
      message := value;
      emits := [];
      if !isTyping {
        isTyping := true;
        emits := emits + [OnTyping(true)];
      }
      timerArmed := true;
      StepCallsOnFlip(old(State()), Change(value));
      Record(old(State()), emits);
    }

    /** The stop-typing timeout callback. */
    method FireTimer() returns (emits: seq<Emit>)
      requires Valid()
      modifies this
      ensures Valid()
      ensures Step(old(State()), TimerFires) == Reaction(State(), emits)
      ensures typingLog == old(typingLog) + TypingFlags(emits)
    {
      emits := [];
      if timerArmed {
        timerArmed := false;
        isTyping := false;
        emits := [OnTyping(false)];
      }
      StepCallsOnFlip(old(State()), TimerFires);
      Record(old(State()), emits);
    }

    /** `handleSend`. */
    method HandleSend() returns (emits: seq<Emit>)
      requires Valid()
      modifies this
      ensures Valid()
      ensures Send(old(State())) == Reaction(State(), emits)
      ensures typingLog == old(typingLog) + TypingFlags(emits)
    {
      ghost var before := State();
      var trimmed := Trim(message);
      if trimmed != "" {
        emits := [OnSendMessage(trimmed)];
        message := "";
        if isTyping {
          isTyping := false;
          emits := emits + [OnTyping(false)];
        }
        timerArmed := false;
      } else {
        emits := [];
      }
      assert Send(before) == Reaction(State(), emits) by {
        SendUnfold(before, trimmed);
      }
      assert CallsOnFlip(before, Reaction(State(), emits)) by {
        SendCallsOnFlip(before);
      }
      Record(before, emits);
    }

    /** `handleKeyPress`. */
    method HandleKeyPress(key: string, shift: bool) returns (emits: seq<Emit>)
      requires Valid()
      modifies this
      ensures Valid()
      ensures Step(old(State()), KeyPress(key, shift)) == Reaction(State(), emits)
      ensures typingLog == old(typingLog) + TypingFlags(emits)
    {
      if key == "Enter" && !shift {
        emits := HandleSend();
      } else {
        emits := [];
      }
    }

    /** Appends the `onTyping` arguments of one step to the log, keeping `Valid`. */
    ghost method Record(before: InputState, emits: seq<Emit>)
      requires Alternating(typingLog, true)
      requires before.isTyping == (typingLog != [] && typingLog[|typingLog| - 1])
      requires CallsOnFlip(before, Reaction(State(), emits))
      modifies this`typingLog
      ensures Valid()
      ensures typingLog == old(typingLog) + TypingFlags(emits)
    {
      if isTyping != before.isTyping {
        AlternatingExtend(typingLog, true, isTyping);
        assert TypingFlags(emits) == [isTyping];
        typingLog := typingLog + TypingFlags(emits);
        assert typingLog[|typingLog| - 1] == isTyping;
      } else {
        assert TypingFlags(emits) == [];
        assert typingLog + [] == typingLog;
        typingLog := typingLog + TypingFlags(emits);
      }
    }
  }

  /** Appending the opposite of the last element (or `start` to an empty log) keeps it alternating. */
  lemma {:induction false} AlternatingExtend(flags: seq<bool>, start: bool, x: bool)
    requires Alternating(flags, start)
    requires x == (if flags == [] then start else !flags[|flags| - 1])
    ensures Alternating(flags + [x], start)
    decreases |flags|
  {
    if flags != [] {
      assert (flags + [x])[1..] == flags[1..] + [x];
      if flags[1..] != [] {
        assert flags[1..][|flags[1..]| - 1] == flags[|flags| - 1];
      }
      AlternatingExtend(flags[1..], !start, x);
    }
  }
}
