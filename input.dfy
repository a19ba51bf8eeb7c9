/** The hard-coded key handling of src/main.rs. A key event is handled
    according to the editor's mode alone: Normal keys switch modes or move
    the cursor, Command keys edit and run the command line, Insert keys
    edit the text. The terminal wrapper `Screen` whose methods move the
    cursor and edit the text is not part of this model: its methods are
    recorded, in order, as `ScreenCall`s. */
module Input {
  import opened Support
  import Keys
  import opened Modes
  import opened Editors

  /** A call of one of the screen wrapper's methods. */
  datatype ScreenCall =
    | MoveDown
    | MoveUp
    | MoveLeft
    | MoveRight
    | Backspace
    | LineBreak
    | InsertChar(c: char)

  /** What a handler does with a key. */
  datatype Response =
    | Nothing
    | ToNormal            // normal_mode()
    | ToInsert            // insert_mode()
    | ToCommand           // command_mode()
    | PopCommand          // current_command.pop()
    | PushCommand(c: char) // current_command.push(c)
    | Execute             // run_command(), clear the line, normal_mode()
    | Call(call: ScreenCall)

  /** Whether `k` is the character `c` held with Control and nothing else. */
  predicate IsCtrl(k: Keys.KeyEvent, c: char)
  {
    k.code == Keys.Char(c) && k.modifiers == Keys.CONTROL
  }

  /** `input_normal_mode`. Ctrl+c is ignored; every other chord counts by
      its key code alone. */
  function NormalResponse(k: Keys.KeyEvent): Response
  {
    var code := k.code;
    if IsCtrl(k, 'c') then Nothing
    else if code == Keys.Char(':') then ToCommand
    else if code == Keys.Char('i') then ToInsert
    else if code == Keys.Down || code == Keys.Char('j') then Call(MoveDown)
    else if code == Keys.Up || code == Keys.Char('k') then Call(MoveUp)
    else if code == Keys.Left || code == Keys.Char('h') then Call(MoveLeft)
    else if code == Keys.Right || code == Keys.Char('l') then Call(MoveRight)
    else Nothing
  }

  /** `input_command_mode`. */
  function CommandResponse(k: Keys.KeyEvent): Response
  {
    if k.code == Keys.Esc then ToNormal
    else if IsCtrl(k, 'h') then PopCommand
    else if k.code == Keys.Enter then Execute
    else if k.code.Char? then PushCommand(k.code.c)
    else Nothing
  }

  /** `input_insert_mode`. */
  function InsertResponse(k: Keys.KeyEvent): Response
  {
    var code := k.code;
    if code == Keys.Esc then ToNormal
    else if IsCtrl(k, 'h') || code == Keys.Backspace then Call(Backspace)
    else if IsCtrl(k, 'c') then ToNormal
    else if code == Keys.Up then Call(MoveUp)
    else if code == Keys.Down then Call(MoveDown)
    else if code == Keys.Left then Call(MoveLeft)
    else if code == Keys.Right then Call(MoveRight)
    else if code == Keys.Enter then Call(LineBreak)
    else if code.Char? then Call(InsertChar(code.c))
    else Nothing
  }

  /** `input_events`: the handler is chosen by the mode. */
  function Respond(mode: Mode, k: Keys.KeyEvent): Response
  {
    match mode
    case Normal => NormalResponse(k)
    case Command => CommandResponse(k)
    case Insert => InsertResponse(k)
  }

  /** The part of the state that key handling changes. */
  datatype Session = Session(
    mode: Mode,
    command: string,
    quit: bool,
    calls: seq<ScreenCall>,
    saved: seq<SaveEvent>)

  /** The state after a response, for a buffer with path `path` and text
      `text`. */
  function Perform(path: Option<string>, text: string, s: Session, r: Response): Session
  {
    match r
    case Nothing => s
    case ToNormal => s.(mode := Normal)
    case ToInsert => s.(mode := Insert)
    case ToCommand => s.(mode := Command, command := s.command + [':'])
    case PopCommand => s.(command := if s.command == [] then [] else s.command[..|s.command| - 1])
    case PushCommand(c) => s.(command := s.command + [c])
    case Execute =>
      s.(mode := Normal, command := [], quit := s.quit || Quit in Commands(s.command),
         saved := s.saved + Saves(Commands(s.command), SaveName(path, NameArg(s.command)), text))
    case Call(c) => s.(calls := s.calls + [c])
  }

  /** The state after one key event. */
  function Step(path: Option<string>, text: string, s: Session, k: Keys.KeyEvent): Session
  {
    Perform(path, text, s, Respond(s.mode, k))
  }

  /** The state after the main loop has handled `events`: it stops right
      after the first event that leaves the editor quitting. */
  function Run(path: Option<string>, text: string, s: Session, events: seq<Keys.KeyEvent>): Session
    decreases |events|
  {
    if events == [] then s
    else
      var next := Step(path, text, s, events[0]);
      if next.quit then next else Run(path, text, next, events[1..])
  }

  /** How many of `events` the main loop handles. */
  function Handled(path: Option<string>, text: string, s: Session, events: seq<Keys.KeyEvent>): (n: nat)
    ensures n <= |events|
    ensures events != [] ==> 1 <= n
    ensures n < |events| ==> Run(path, text, s, events).quit
    decreases |events|
  {
    if events == [] then 0
    else
      var next := Step(path, text, s, events[0]);
      if next.quit then 1 else 1 + Handled(path, text, next, events[1..])
  }

  /** The state after handling every one of `events`, with no early
      stop. */
  function Steps(path: Option<string>, text: string, s: Session, events: seq<Keys.KeyEvent>): Session
    decreases |events|
  {
    if events == [] then s else Steps(path, text, Step(path, text, s, events[0]), events[1..])
  }

  /** Normal mode: ':' and 'i' switch modes, j/Down, k/Up, h/Left and
      l/Right move, whatever the modifiers (so Ctrl+j moves down), except
      that Ctrl+c does nothing; every other key, Esc included, does
      nothing. */
  lemma NormalKeys(k: Keys.KeyEvent)
    ensures IsCtrl(k, 'c') ==> NormalResponse(k) == Nothing
    ensures k.code == Keys.Char(':') ==> NormalResponse(k) == ToCommand
    ensures k.code == Keys.Char('i') ==> NormalResponse(k) == ToInsert
    ensures k.code in {Keys.Down, Keys.Char('j')} ==> NormalResponse(k) == Call(MoveDown)
    ensures k.code in {Keys.Up, Keys.Char('k')} ==> NormalResponse(k) == Call(MoveUp)
    ensures k.code in {Keys.Left, Keys.Char('h')} ==> NormalResponse(k) == Call(MoveLeft)
    ensures k.code in {Keys.Right, Keys.Char('l')} ==> NormalResponse(k) == Call(MoveRight)
    ensures NormalResponse(k) != Nothing ==>
      (k.code in {Keys.Char(':'), Keys.Char('i'), Keys.Down, Keys.Char('j'), Keys.Up, Keys.Char('k'),
                  Keys.Left, Keys.Char('h'), Keys.Right, Keys.Char('l')})
    ensures NormalResponse(k) != Nothing ==> !IsCtrl(k, 'c')
  {
  }

  /** Command mode: Esc goes back to Normal and keeps the command line,
      Ctrl+h takes its last character off (nothing on an empty line),
      Enter runs it, clears it and goes back to Normal, and every other
      character, with any modifiers, is appended. */
  lemma CommandKeys(path: Option<string>, text: string, s: Session, k: Keys.KeyEvent)
    requires s.mode == Command
    ensures k.code == Keys.Esc ==>
      Step(path, text, s, k) == s.(mode := Normal)
    ensures IsCtrl(k, 'h') ==>
      Step(path, text, s, k) == s.(command := if s.command == [] then [] else s.command[..|s.command| - 1])
    ensures k.code == Keys.Enter ==>
      Step(path, text, s, k).mode == Normal && Step(path, text, s, k).command == []
    ensures k.code.Char? && !IsCtrl(k, 'h') ==>
      Step(path, text, s, k) == s.(command := s.command + [k.code.c])
    ensures k.code !in {Keys.Esc, Keys.Enter} && !k.code.Char? ==> Step(path, text, s, k) == s
  {
  }

  /** Insert mode: Esc and Ctrl+c go back to Normal, Backspace and Ctrl+h
      delete, Enter breaks the line, the arrows move and every other
      character, with any modifiers, is typed. */
  lemma InsertKeys(k: Keys.KeyEvent)
    ensures k.code == Keys.Esc || IsCtrl(k, 'c') ==> InsertResponse(k) == ToNormal
    ensures k.code == Keys.Backspace || IsCtrl(k, 'h') ==> InsertResponse(k) == Call(Backspace)
    ensures k.code == Keys.Enter ==> InsertResponse(k) == Call(LineBreak)
    ensures k.code == Keys.Up ==> InsertResponse(k) == Call(MoveUp)
    ensures k.code == Keys.Down ==> InsertResponse(k) == Call(MoveDown)
    ensures k.code == Keys.Left ==> InsertResponse(k) == Call(MoveLeft)
    ensures k.code == Keys.Right ==> InsertResponse(k) == Call(MoveRight)
    ensures k.code.Char? && !IsCtrl(k, 'c') && !IsCtrl(k, 'h') ==>
      InsertResponse(k) == Call(InsertChar(k.code.c))
    ensures InsertResponse(k).Call? || InsertResponse(k) in {ToNormal, Nothing}
  {
  }

  /** Only Enter in Command mode makes the editor quit, and it does so
      exactly when a 'q' stands before the first blank of the command
      line; once quitting, the editor stays so. */
  lemma OnlyExecuteQuits(path: Option<string>, text: string, s: Session, k: Keys.KeyEvent)
    ensures s.quit ==> Step(path, text, s, k).quit
    ensures !s.quit ==> (Step(path, text, s, k).quit <==>
      s.mode == Command && k.code == Keys.Enter && 'q' in FirstWord(s.command))
  {
    CommandsOfFirstWord(s.command);
  }

  /** The main loop handles events, without stopping early, up to and
      including the first that leaves the editor quitting, and stops
      before the end only there. */
  lemma {:induction false} RunStopsOnQuit(path: Option<string>, text: string, s: Session, events: seq<Keys.KeyEvent>)
    ensures Run(path, text, s, events) == Steps(path, text, s, events[..Handled(path, text, s, events)])
    ensures Handled(path, text, s, events) < |events| ==> Run(path, text, s, events).quit
    ensures events != [] ==> Handled(path, text, s, events) > 0
    ensures forall j :: 0 < j < Handled(path, text, s, events) ==> !Steps(path, text, s, events[..j]).quit
    decreases |events|
  {
    if events != [] {
      var next := Step(path, text, s, events[0]);
      assert Steps(path, text, s, events[..1]) == next by {
        assert events[..1][1..] == [];
      }
      if !next.quit {
        var rest := events[1..];
        var h := Handled(path, text, next, rest);
        RunStopsOnQuit(path, text, next, rest);
        assert events[..1 + h][1..] == rest[..h];
        forall j | 1 < j < 1 + h
          ensures !Steps(path, text, s, events[..j]).quit
        {
          assert events[..j][1..] == rest[..j - 1];
        }
      }
    }
  }

  const Colon := Keys.KeyEvent(Keys.Char(':'), Keys.NONE)
  const LetterQ := Keys.KeyEvent(Keys.Char('q'), Keys.NONE)
  const EnterKey := Keys.KeyEvent(Keys.Enter, Keys.NONE)
  const EscKey := Keys.KeyEvent(Keys.Esc, Keys.NONE)

  /** Three events of which only the last leaves the editor quitting are
      all handled. */
  lemma RunOfThree(path: Option<string>, text: string, s: Session, a: Keys.KeyEvent, b: Keys.KeyEvent, c: Keys.KeyEvent)
    requires !Step(path, text, s, a).quit && !Step(path, text, Step(path, text, s, a), b).quit
    requires Step(path, text, Step(path, text, Step(path, text, s, a), b), c).quit
    ensures Run(path, text, s, [a, b, c]) == Step(path, text, Step(path, text, Step(path, text, s, a), b), c)
    ensures Handled(path, text, s, [a, b, c]) == 3
  {
    var s1 := Step(path, text, s, a);
    var s2 := Step(path, text, s1, b);
    assert [a, b, c][1..] == [b, c] && [b, c][1..] == [c];
    assert Run(path, text, s2, [c]) == Step(path, text, s2, c);
    assert Run(path, text, s1, [b, c]) == Run(path, text, s2, [c]);
    assert Handled(path, text, s2, [c]) == 1;
    assert Handled(path, text, s1, [b, c]) == 2;
  }

  /** In Normal mode, ":q" and Enter end the session after the third
      event, provided no blank was left over on the command line. */
  lemma QuitKeystrokes(path: Option<string>, text: string, s: Session)
    requires s.mode == Normal && !s.quit && ' ' !in s.command
    ensures Run(path, text, s, [Colon, LetterQ, EnterKey]).quit
    ensures Handled(path, text, s, [Colon, LetterQ, EnterKey]) == 3
  {
    var c := s.command + [':', 'q'];
    var s1 := Step(path, text, s, Colon);
    var s2 := Step(path, text, s1, LetterQ);
    assert s2 == s.(mode := Command, command := c);
    assert 'q' in FirstWord(c) by {
      assert ' ' !in c;
      assert c[|c| - 1] == 'q';
    }
    OnlyExecuteQuits(path, text, s2, EnterKey);
    RunOfThree(path, text, s, Colon, LetterQ, EnterKey);
  }

  /** Esc does not clear the command line, so what was typed before it is
      run with the next command: leaving Command mode after a 'q' and
      pressing ':' and Enter quits. */
  lemma EscapeKeepsCommand(path: Option<string>, text: string, s: Session)
    requires s.mode == Command && !s.quit && ' ' !in s.command && 'q' in s.command
    ensures Run(path, text, s, [EscKey, Colon, EnterKey]).quit
    ensures Handled(path, text, s, [EscKey, Colon, EnterKey]) == 3
  {
    var c := s.command + [':'];
    var s1 := Step(path, text, s, EscKey);
    var s2 := Step(path, text, s1, Colon);
    assert s2 == s.(command := c);
    assert 'q' in FirstWord(c) by {
      assert ' ' !in c;
      assert c[..|s.command|] == s.command;
    }
    OnlyExecuteQuits(path, text, s2, EnterKey);
    RunOfThree(path, text, s, EscKey, Colon, EnterKey);
  }

  /** The screen wrapper: the editor and the record of the calls made to
      the wrapper's own methods. */
  class Screen {
    var e: Editor
    var calls: seq<ScreenCall>

    constructor (e: Editor)
      ensures this.e == e && calls == []
    {
      this.e := e;
      calls := [];
    }

    function State(): Session
      reads this, e
    {
      Session(e.mode, e.currentCommand, e.quit, calls, e.saved)
    }

    /** A call of one of the wrapper's methods. */
    method Record(c: ScreenCall)
      modifies this
      ensures calls == old(calls) + [c] && e == old(e)
    {
      calls := calls + [c];
    }

    /** Carry out a response. */
    method Do(r: Response)
      modifies this, e
      ensures e == old(e) && e.textbuffer == old(e.textbuffer)
      ensures State() == Perform(e.textbuffer.path, e.textbuffer.text, old(State()), r)
    {
      match r
      case Nothing =>
      case ToNormal => e.NormalMode();
      case ToInsert => e.InsertMode();
      case ToCommand => e.CommandMode();
      case PopCommand =>
        if e.currentCommand != [] {
          e.currentCommand := e.currentCommand[..|e.currentCommand| - 1];
        }
      case PushCommand(c) => e.currentCommand := e.currentCommand + [c];
      case Execute =>
        e.RunCommand();
        e.currentCommand := [];
        e.NormalMode();
      case Call(c) => Record(c);
    }

    /** `input_normal_mode(s, k)`. */
    method InputNormalMode(k: Keys.KeyEvent)
      modifies this, e
      ensures e == old(e) && e.textbuffer == old(e.textbuffer)
      ensures State() == Perform(e.textbuffer.path, e.textbuffer.text, old(State()), NormalResponse(k))
    {
      Do(NormalResponse(k));
    }

    /** `input_command_mode(s, k)`. */
    method InputCommandMode(k: Keys.KeyEvent)
      modifies this, e
      ensures e == old(e) && e.textbuffer == old(e.textbuffer)
      ensures State() == Perform(e.textbuffer.path, e.textbuffer.text, old(State()), CommandResponse(k))
    {
      Do(CommandResponse(k));
    }

    /** `input_insert_mode(s, k)`. */
    method InputInsertMode(k: Keys.KeyEvent)
      modifies this, e
      ensures e == old(e) && e.textbuffer == old(e.textbuffer)
      ensures State() == Perform(e.textbuffer.path, e.textbuffer.text, old(State()), InsertResponse(k))
    {
      Do(InsertResponse(k));
    }

    /** `input_events(s)` for a key event: dispatch on the mode. */
    method InputEvents(k: Keys.KeyEvent)
      modifies this, e
      ensures e == old(e) && e.textbuffer == old(e.textbuffer)
      ensures State() == Step(e.textbuffer.path, e.textbuffer.text, old(State()), k)
    {
      match e.mode
      case Normal => InputNormalMode(k);
      case Command => InputCommandMode(k);
      case Insert => InputInsertMode(k);
    }

    /** The loop of `main`: handle key events until one leaves the editor
        quitting. Returns how many events were handled. */
    method MainLoop(events: seq<Keys.KeyEvent>) returns (handled: nat)
      modifies this, e
      ensures e == old(e) && e.textbuffer == old(e.textbuffer)
      ensures State() == Run(e.textbuffer.path, e.textbuffer.text, old(State()), events)
      ensures handled == Handled(e.textbuffer.path, e.textbuffer.text, old(State()), events)
    {
      ghost var path := e.textbuffer.path;
      ghost var text := e.textbuffer.text;
      handled := 0;
      while handled < |events|
        invariant handled <= |events|
        invariant e == old(e) && e.textbuffer == old(e.textbuffer)
        invariant e.textbuffer.path == path && e.textbuffer.text == text
        invariant Run(path, text, old(State()), events) == Run(path, text, State(), events[handled..])
        invariant Handled(path, text, old(State()), events)
          == handled + Handled(path, text, State(), events[handled..])
      {
        assert events[handled..][1..] == events[handled + 1..];
        InputEvents(events[handled]);
        handled := handled + 1;
        if e.quit {
          return;
        }
      }
    }
  }
}
