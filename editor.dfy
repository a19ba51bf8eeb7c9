/** The editor state of src/editor.rs: a mode, the command being typed in
    Command mode, the text buffer and the quit flag; the parser that turns
    a command line into commands, and `run_command`, which carries them
    out. Writing a file is kept as a record of what would be written
    where: `saved` lists the writes in order. */
module Editors {
  import opened Support
  import opened Strings
  import opened Modes
  import opened TextBuffers

  datatype CommandType = Quit | Save

  /** One write of the buffer's text to a file. */
  datatype SaveEvent = Write(file: string, text: string)

  /** The file `save` writes to when no name is given at all. */
  const DefaultFile: string := "new_text.txt"

  /** The commands a command line asks for: a `Save` for each 'w' and a
      `Quit` for each 'q', in the order they are typed, up to the first
      blank; every other character is ignored. */
  function Commands(cmd: string): (r: seq<CommandType>)
    ensures |r| <= |cmd|
  {
    if cmd == [] || cmd[0] == ' ' then []
    else (if cmd[0] == 'w' then [Save] else if cmd[0] == 'q' then [Quit] else []) + Commands(cmd[1..])
  }

  /** The command line up to its first blank (`split(' ')`'s first
      piece). */
  function FirstWord(cmd: string): (r: string)
    ensures |r| <= |cmd| && r == cmd[..|r|] && ' ' !in r
    ensures r == cmd || cmd[|r|] == ' '
  {
    cmd[..IndexOf(cmd, ' ')]
  }

  /** `split(' ')`'s second piece, present exactly when the line holds a
      blank: the text after the first blank, up to the next blank. */
  function NameArg(cmd: string): (r: Option<string>)
    ensures r.Some? <==> ' ' in cmd
    ensures r.Some? ==> |FirstWord(cmd)| + 1 + |r.value| <= |cmd|
    ensures r.Some? ==> cmd[|FirstWord(cmd)| + 1..|FirstWord(cmd)| + 1 + |r.value|] == r.value
    ensures r.Some? ==> ' ' !in r.value
    ensures r.Some? ==> |FirstWord(cmd)| + 1 + |r.value| == |cmd| || cmd[|FirstWord(cmd)| + 1 + |r.value|] == ' '
  {
    var k := IndexOf(cmd, ' ');
    if k == |cmd| then None
    else
      var rest := cmd[k + 1..];
      var name := FirstWord(rest);
      assert cmd[k + 1..k + 1 + |name|] == rest[..|name|];
      Some(name)
  }

  /** The parse of a line is the parse of its first piece concatenated
      with whatever follows, as long as no blank came first. */
  lemma {:induction false} CommandsAppend(a: string, b: string)
    requires ' ' !in a
    ensures Commands(a + b) == Commands(a) + Commands(b)
  {
    if a != [] {
      assert (a + b)[0] == a[0];
      assert (a + b)[1..] == a[1..] + b;
      CommandsAppend(a[1..], b);
    } else {
      assert a + b == b;
    }
  }

  /** What `CommandType::new` finds depends only on the first piece of
      the line: it asks to quit exactly when a 'q' comes before the first
      blank, to save exactly when a 'w' does, and it holds one command per
      such letter. */
  lemma {:induction false} CommandsOfFirstWord(cmd: string)
    ensures Commands(cmd) == Commands(FirstWord(cmd))
    ensures Quit in Commands(cmd) <==> 'q' in FirstWord(cmd)
    ensures Save in Commands(cmd) <==> 'w' in FirstWord(cmd)
    ensures |Commands(cmd)| == Occurrences(FirstWord(cmd), 'q') + Occurrences(FirstWord(cmd), 'w')
  {
    if cmd != [] && cmd[0] != ' ' {
      var w := FirstWord(cmd);
      assert w == [cmd[0]] + FirstWord(cmd[1..]);
      CommandsOfFirstWord(cmd[1..]);
      assert w[1..] == FirstWord(cmd[1..]);
    }
  }

  /** `CommandType::new(cmd)`: scan the line, stop at the first blank. */
  method CommandTypeNew(cmd: string) returns (commands: seq<CommandType>)
    ensures commands == Commands(cmd)
  {
    commands := [];
    var i := 0;
    while i < |cmd|
      invariant i <= |cmd| && ' ' !in cmd[..i]
      invariant commands == Commands(cmd[..i])
    {
      var c := cmd[i];
      if c == ' ' {
        CommandsAppend(cmd[..i], cmd[i..]);
        assert cmd == cmd[..i] + cmd[i..];
        return;
      }
      if c == 'w' {
        commands := commands + [Save];
      } else if c == 'q' {
        commands := commands + [Quit];
      }
      CommandsAppend(cmd[..i], [c]);
      assert cmd[..i + 1] == cmd[..i] + [c];
      i := i + 1;
    }
    assert cmd[..i] == cmd;
  }

  /** The file `save(name)` writes: the buffer's own path if it has one,
      else the name given, else the default file. */
  function SaveName(path: Option<string>, name: Option<string>): (r: string)
    ensures path.Some? ==> r == path.value
    ensures path.None? && name.Some? ==> r == name.value
    ensures path.None? && name.None? ==> r == DefaultFile
  {
    match path
    case Some(n) => n
    case None => if name.Some? then name.value else DefaultFile
  }

  /** The writes a run of `commands` makes: one write of `text` to `file`
      for each `Save`, and nothing for a `Quit`. */
  function Saves(commands: seq<CommandType>, file: string, text: string): seq<SaveEvent>
  {
    if commands == [] then []
    else
      var last := commands[|commands| - 1];
      var init := commands[..|commands| - 1];
      assert commands == init + [last];
      Saves(init, file, text) + (if last == Save then [Write(file, text)] else [])
  }

  /** Every write of a run goes to the same file with the same text, and
      there is one exactly when the run holds a `Save`. */
  lemma {:induction false} SavesShape(commands: seq<CommandType>, file: string, text: string)
    ensures |Saves(commands, file, text)| <= |commands|
    ensures forall e :: e in Saves(commands, file, text) ==> e == Write(file, text)
    ensures Saves(commands, file, text) == [] <==> Save !in commands
  {
    if commands != [] {
      var init := commands[..|commands| - 1];
      assert commands == init + [commands[|commands| - 1]];
      SavesShape(init, file, text);
    }
  }

  /** One more command adds its write, if it is a `Save`, at the end. */
  lemma SavesSnoc(commands: seq<CommandType>, c: CommandType, file: string, text: string)
    ensures Saves(commands + [c], file, text)
      == Saves(commands, file, text) + (if c == Save then [Write(file, text)] else [])
  {
    assert (commands + [c])[..|commands|] == commands;
  }

  /** The parsing half of `run_command`: the commands of the first piece
      of the line (the whole line when it holds no blank) and the name
      given after the first blank, if any. */
  method ParseCommand(command: string) returns (com: seq<CommandType>, name: Option<string>)
    ensures com == Commands(command) && name == NameArg(command)
  {
    name := None;
    if ' ' in command {
      CommandsOfFirstWord(command);
      com := CommandTypeNew(FirstWord(command));
      name := NameArg(command);
    } else {
      com := CommandTypeNew(command);
    }
  }

  class Editor {
    var mode: Mode
    var currentCommand: string
    var textbuffer: TextBuffer
    var quit: bool
    var saved: seq<SaveEvent>

    /** `Editor::new(mode, file_name)`; `contents` stands for what the
        named file holds. */
    constructor (mode: Mode, fileName: Option<string>, contents: string)
      ensures this.mode == mode && currentCommand == [] && !quit && saved == []
      ensures fresh(textbuffer)
      ensures textbuffer.text == (if fileName.None? then [] else contents)
      ensures textbuffer.path == fileName && !textbuffer.dirty
    {
      this.mode := mode;
      currentCommand := [];
      textbuffer := new TextBuffer.FromPath(fileName, contents);
      quit := false;
      saved := [];
    }

    /** `save(name)`: write the text to the chosen file. */
    method SaveTo(name: Option<string>)
      modifies this
      ensures saved == old(saved) + [Write(SaveName(textbuffer.path, name), textbuffer.text)]
      ensures mode == old(mode) && currentCommand == old(currentCommand)
      ensures textbuffer == old(textbuffer) && quit == old(quit)
    {
      var file := SaveName(textbuffer.path, name);
      saved := saved + [Write(file, textbuffer.text)];
    }

    /** `quit()`. */
    method SetQuit()
      modifies this
      ensures quit
      ensures mode == old(mode) && currentCommand == old(currentCommand)
      ensures textbuffer == old(textbuffer) && saved == old(saved)
    {
      quit := true;
    }

    /** `run_command()`: parse the command line and carry out its commands
        in order. A second piece after a blank names the file to save to.
        The editor is then quitting exactly when it was already or when a
        'q' came before the first blank. */
    method RunCommand()
      modifies this
      ensures quit == (old(quit) || Quit in Commands(currentCommand))
      ensures saved == old(saved) + Saves(Commands(currentCommand),
        SaveName(textbuffer.path, NameArg(currentCommand)), textbuffer.text)
      ensures mode == old(mode) && currentCommand == old(currentCommand)
      ensures textbuffer == old(textbuffer)
    {
      var com, name := ParseCommand(currentCommand);
      Perform(com, name);
    }

    /** The loop of `run_command`: `quit()` for each `Quit`, `save(name)`
        for each `Save`. */
    method Perform(com: seq<CommandType>, name: Option<string>)
      modifies this
      ensures quit == (old(quit) || Quit in com)
      ensures saved == old(saved) + Saves(com, SaveName(textbuffer.path, name), textbuffer.text)
      ensures mode == old(mode) && currentCommand == old(currentCommand)
      ensures textbuffer == old(textbuffer)
    {
      ghost var file := SaveName(textbuffer.path, name);
      ghost var text := textbuffer.text;
      for i := 0 to |com|
        invariant quit == (old(quit) || Quit in com[..i])
        invariant saved == old(saved) + Saves(com[..i], file, text)
        invariant mode == old(mode) && currentCommand == old(currentCommand)
        invariant textbuffer == old(textbuffer)
      {
        assert com[..i + 1] == com[..i] + [com[i]];
        SavesSnoc(com[..i], com[i], file, text);
        PerformOne(com[i], name);
      }
      assert com[..|com|] == com;
    }

    /** One pass of that loop. */
    method PerformOne(c: CommandType, name: Option<string>)
      modifies this
      ensures quit == (old(quit) || c == Quit)
      ensures saved == old(saved) + (if c == Save then [Write(SaveName(textbuffer.path, name), textbuffer.text)] else [])
      ensures mode == old(mode) && currentCommand == old(currentCommand)
      ensures textbuffer == old(textbuffer)
    {
      match c
      case Quit => SetQuit();
      case Save => SaveTo(name);
    }

    /** `command_mode()`: enter Command mode and put ':' after whatever the
        command line already holds. */
    method CommandMode()
      modifies this
      ensures mode == Command && currentCommand == old(currentCommand) + [':']
      ensures quit == old(quit) && textbuffer == old(textbuffer) && saved == old(saved)
    {
      mode := Command;
      currentCommand := currentCommand + [':'];
    }

    /** `insert_mode()`. */
    method InsertMode()
      modifies this
      ensures mode == Insert && currentCommand == old(currentCommand)
      ensures quit == old(quit) && textbuffer == old(textbuffer) && saved == old(saved)
    {
      mode := Insert;
    }

    /** `normal_mode()`. */
    method NormalMode()
      modifies this
      ensures mode == Normal && currentCommand == old(currentCommand)
      ensures quit == old(quit) && textbuffer == old(textbuffer) && saved == old(saved)
    {
      mode := Normal;
    }

    predicate IsNormal()
      reads this
    {
      mode.Normal?
    }

    predicate IsCommand()
      reads this
    {
      mode.Command?
    }

    predicate IsInsert()
      reads this
    {
      mode.Insert?
    }
  }

  /** The three mode tests: exactly one of them holds, the one that names
      the editor's mode. */
  lemma ExactlyOneMode(e: Editor)
    ensures (if e.IsNormal() then 1 else 0) + (if e.IsCommand() then 1 else 0)
      + (if e.IsInsert() then 1 else 0) == 1
    ensures e.IsNormal() <==> e.mode == Normal
    ensures e.IsCommand() <==> e.mode == Command
    ensures e.IsInsert() <==> e.mode == Insert
  {
  }
}
