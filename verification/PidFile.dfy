/**
 Publishing a PID with one rename: the number is written to a temporary file
 beside its destination, piece by piece, and only a complete one takes the name.

 A directory keeps a ghost history of every state it has been in, which is what
 a reader - or a crash - at any point between two steps would find.
 */
module PidFile {
  import opened Text

  datatype Node = File(text: string) | Subdirectory

  type Names = map<string, Node>

  function At(names: Names, name: string): Option<Node> {
    if name in names then Some(names[name]) else None
  }

  // ---------------------------------------------------------------------
  // The reader
  // ---------------------------------------------------------------------

  const I32_MAX: int := 0x7fff_ffff

  /** `char::is_whitespace` */
  predicate IsSpace(c: char) {
    || '\U{9}' <= c <= '\U{D}' || c == ' ' || c == '\U{85}' || c == '\U{A0}' || c == '\U{1680}'
    || '\U{2000}' <= c <= '\U{200A}' || c == '\U{2028}' || c == '\U{2029}' || c == '\U{202F}'
    || c == '\U{205F}' || c == '\U{3000}'
  }

  function TrimFront(s: string): string {
    if s != "" && IsSpace(s[0]) then TrimFront(s[1..]) else s
  }

  function TrimBack(s: string): string {
    if s != "" && IsSpace(s[|s| - 1]) then TrimBack(s[..|s| - 1]) else s
  }

  /** `s.parse::<i32>()` */
  function ParseI32(s: string): Option<int> {
    var negative := s != "" && s[0] == '-';
    var digits := if s != "" && (s[0] == '-' || s[0] == '+') then s[1..] else s;
    if digits != "" && forall c :: c in digits ==> IsDigit(c) then
      var n: int := if negative then 0 - Value(digits) else Value(digits);
      if -I32_MAX - 1 <= n <= I32_MAX then Some(n) else None
    else None
  }

  /** `read_pid_file` */
  function ReadPid(names: Names, name: string): Option<int> {
    match At(names, name)
    case Some(File(text)) => ParseI32(TrimBack(TrimFront(text)))
    case _ => None
  }

  /** What a PID file should hold. */
  function PidText(pid: nat): string {
    Format(pid) + "\n"
  }

  /** A published PID reads back as itself, exactly when it is a number a reader can hold. */
  lemma PidReadsBack(names: Names, name: string, pid: nat)
    requires At(names, name) == Some(File(PidText(pid)))
    ensures ReadPid(names, name) == if pid <= I32_MAX then Some(pid) else None
  {
    var digits := Format(pid);
    assert digits[0] in digits && digits[|digits| - 1] in digits;
    var text := PidText(pid);
    assert TrimFront(text) == text && TrimBack(digits) == digits;
    assert text[..|text| - 1] == digits && IsSpace(text[|text| - 1]);
    assert TrimBack(text) == digits;
    ValueOfFormat(pid);
  }

  // ---------------------------------------------------------------------
  // The directory
  // ---------------------------------------------------------------------

  class Directory {
    var names: Names
    ghost var history: seq<Names>

    ghost predicate Valid()
      reads this
    {
      history != [] && history[|history| - 1] == names
    }

    constructor (names: Names)
      ensures Valid() && this.names == names && history == [names]
    {
      this.names, history := names, [names];
    }

    /** Nothing but `name` has differed since, at any point. */
    twostate predicate OnlyTouched(name: string)
      reads this
    {
      && old(history) <= history
      && forall i :: |old(history)| <= i < |history| ==> history[i] - {name} == old(names) - {name}
    }

    method Change(names: Names)
      modifies this
      ensures Valid() && this.names == names && history == old(history) + [names]
    {
      this.names, history := names, history + [names];
    }

    /** `create_new`: refuses a name that is taken. */
    method CreateNew(name: string, refused: bool) returns (ok: bool)
      requires Valid()
      modifies this
      ensures Valid() && OnlyTouched(name) && (ok <==> !refused && name !in old(names))
      ensures At(names, name) == if ok then Some(File("")) else At(old(names), name)
      ensures !ok ==> names == old(names)
    {
      ok := !refused && name !in names;
      if ok {
        Change(names[name := File("")]);
      }
    }

    method Append(name: string, text: string)
      requires Valid() && name in names && names[name].File?
      modifies this
      ensures Valid() && OnlyTouched(name)
      ensures At(names, name) == Some(File(old(names)[name].text + text))
    {
      Change(names[name := File(names[name].text + text)]);
    }

    /** `rename`: the destination's old content gives way to the new in one step. */
    method Rename(source: string, destination: string, refused: bool) returns (ok: bool)
      requires Valid() && source in names && names[source].File? && source != destination
      modifies this
      ensures Valid()
      ensures ok <==> !refused && At(old(names), destination) != Some(Subdirectory)
      ensures names == if ok then old(names)[destination := old(names)[source]] - {source} else old(names)
      ensures history == old(history) + if ok then [names] else []
    {
      ok := !refused && At(names, destination) != Some(Subdirectory);
      if ok {
        Change(names[destination := names[source]] - {source});
      }
    }

    /** `remove_file`, whose failures nobody looks at. */
    method Remove(name: string, refused: bool)
      requires Valid() && At(names, name) != Some(Subdirectory)
      modifies this
      ensures Valid() && OnlyTouched(name)
      ensures names == if refused then old(names) else old(names) - {name}
    {
      if !refused {
        Change(names - {name});
      }
    }
  }

  // ---------------------------------------------------------------------
  // The writer
  // ---------------------------------------------------------------------

  /** What may go wrong along the way, and how much each `write` call takes. */
  datatype Luck = Luck(
    createRefused: bool,
    writes: nat -> Option<nat>,
    flushFails: bool,
    renameRefused: bool,
    removeRefused: bool)

  predicate WritesWork(luck: Luck, calls: nat) {
    forall k: nat :: k < calls ==> luck.writes(k).Some? && luck.writes(k).value > 0
  }

  /** `write_all`: pieces of any size, until all is written or a write fails or takes nothing. */
  method WriteAll(dir: Directory, name: string, text: string, luck: Luck)
    returns (ok: bool)
    requires dir.Valid() && At(dir.names, name) == Some(File(""))
    modifies dir
    ensures dir.Valid() && dir.OnlyTouched(name)
    ensures name in dir.names && dir.names[name].File? && dir.names[name].text <= text
    ensures ok ==> dir.names[name].text == text
    ensures WritesWork(luck, |text|) ==> ok
  {
    var done := 0;
    var calls := 0;
    while done < |text|
      invariant done <= |text| && dir.Valid() && dir.OnlyTouched(name)
      invariant calls <= done && At(dir.names, name) == Some(File(text[..done]))
      decreases |text| - done
    {
      var took := luck.writes(calls);
      calls := calls + 1;
      if took.None? || took.value == 0 {
        return false;
      }
      var next := if took.value <= |text| - done then done + took.value else |text|;
      assert text[..done] + text[done..next] == text[..next];
      dir.Append(name, text[done..next]);
      done := next;
    }
    ok := true;
  }

  /** At every point since, `name` has shown what it did or the whole of `text`, and only `temporary` else differed. */
  ghost predicate NeverPartial(
    before: seq<Names>, after: seq<Names>, was: Names, name: string, temporary: string, text: string)
  {
    && before <= after
    && forall i :: |before| <= i < |after| ==>
         && (At(after[i], name) == At(was, name) || At(after[i], name) == Some(File(text)))
         && after[i] - {name, temporary} == was - {name, temporary}
  }

  /** A change to the temporary file alone shows nowhere else. */
  lemma Elsewhere(was: Names, now: Names, name: string, temporary: string)
    requires name != temporary && now - {temporary} == was - {temporary}
    ensures At(now, name) == At(was, name) && now - {name, temporary} == was - {name, temporary}
  {
    assert now - {name, temporary} == (now - {temporary}) - {name};
    assert was - {name, temporary} == (was - {temporary}) - {name};
    assert name in now <==> name in now - {temporary};
    assert name in was <==> name in was - {temporary};
    assert name in was ==> (now - {temporary})[name] == (was - {temporary})[name];
  }

  lemma StillNotPartial(
    before: seq<Names>, middle: seq<Names>, after: seq<Names>,
    was: Names, now: Names, name: string, temporary: string, text: string)
    requires name != temporary && NeverPartial(before, middle, was, name, temporary, text)
    requires At(now, name) == At(was, name) || At(now, name) == Some(File(text))
    requires now - {name, temporary} == was - {name, temporary}
    requires middle <= after
    requires forall i :: |middle| <= i < |after| ==> after[i] - {temporary} == now - {temporary}
    ensures NeverPartial(before, after, was, name, temporary, text)
  {
    forall i | |middle| <= i < |after|
      ensures At(after[i], name) == At(now, name)
      ensures after[i] - {name, temporary} == was - {name, temporary}
    {
      Elsewhere(now, after[i], name, temporary);
    }
  }

  /**
   `write_pid_file`, with the removal `PendingPid` does on its way out. Whatever
   fails, the directory ends up as it was or with just the PID published, and at
   no point in between does the destination show part of a PID. The temporary file
   is left behind exactly if it was created, never renamed, and its removal failed
   too; it then holds some beginning of the PID.
   */
  method WritePidFile(dir: Directory, destination: string, temporary: string, pid: nat, luck: Luck)
    returns (ok: bool)
    requires dir.Valid() && temporary != destination
    modifies dir
    ensures dir.Valid()
    ensures NeverPartial(old(dir.history), dir.history, old(dir.names), destination, temporary, PidText(pid))
    ensures ok ==> dir.names == old(dir.names)[destination := File(PidText(pid))]
    ensures !ok ==> dir.names - {temporary} == old(dir.names) - {temporary}
    ensures !ok ==>
              if !luck.createRefused && temporary !in old(dir.names) && luck.removeRefused
              then && temporary in dir.names && dir.names[temporary].File?
                   && dir.names[temporary].text <= PidText(pid)
              else dir.names == old(dir.names)
    ensures ok ==> temporary !in old(dir.names) && At(old(dir.names), destination) != Some(Subdirectory)
    ensures (&& !luck.createRefused && !luck.flushFails && !luck.renameRefused
             && WritesWork(luck, |PidText(pid)|) && temporary !in old(dir.names)
             && At(old(dir.names), destination) != Some(Subdirectory)) ==> ok
  {
    ghost var start, was := dir.history, dir.names;
    var text := PidText(pid);
    ok := dir.CreateNew(temporary, luck.createRefused);
    StillNotPartial(start, start, dir.history, was, was, destination, temporary, text);
    if !ok {
      return;
    }
    ghost var made, created := dir.names, dir.history;
    var written := WriteAll(dir, temporary, text, luck);
    Elsewhere(was, made, destination, temporary);
    StillNotPartial(start, created, dir.history, was, made, destination, temporary, text);
    Elsewhere(made, dir.names, destination, temporary);
    ghost var wrote := dir.names;
    assert wrote - {temporary} == was - {temporary} == was;
    ok := false;
    if written && !luck.flushFails {
      ok := dir.Rename(temporary, destination, luck.renameRefused);
    }
    assert ok ==> dir.names == (wrote - {temporary})[destination := File(text)];
    ghost var renamed, names := dir.history, dir.names;
    dir.Remove(temporary, luck.removeRefused);
    StillNotPartial(start, renamed, dir.history, was, names, destination, temporary, text);
  }

  /** What a reader makes of that, at any point and after any failure. */
  lemma ReaderSeesOldOrNew(
    before: seq<Names>, after: seq<Names>, was: Names, name: string, temporary: string, pid: nat, i: nat)
    requires NeverPartial(before, after, was, name, temporary, PidText(pid))
    requires |before| <= i < |after| && pid <= I32_MAX
    ensures ReadPid(after[i], name) == ReadPid(was, name) || ReadPid(after[i], name) == Some(pid)
  {
    if At(after[i], name) == Some(File(PidText(pid))) {
      PidReadsBack(after[i], name, pid);
    }
  }
}
