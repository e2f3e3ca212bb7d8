// rotating_file_sink: a log spread over a fixed number of files.
module RotatingSink {
  import opened DecimalDigits
  import B = BraceFormat

  // ---- The log as a list of file contents, newest file first ----

  function Concat(msgs: seq<string>): string
  {
    if msgs == [] then "" else Concat(msgs[..|msgs| - 1]) + msgs[|msgs| - 1]
  }

  /** The files read as one stream, oldest first. */
  function Stream(log: seq<string>): string
  {
    if log == [] then "" else Stream(log[1..]) + log[0]
  }

  predicate Rotates(log: seq<string>, maxSize: nat, msg: string)
    requires log != []
  {
    |log[0]| + |msg| > maxSize
  }

  /** One message: every file moves one place up and a new one is started when
      the message does not fit. */
  function Sink(log: seq<string>, maxSize: nat, msg: string): (r: seq<string>)
    requires log != []
    ensures |r| == |log|
  {
    if Rotates(log, maxSize, msg) then [msg] + log[..|log| - 1] else log[0 := log[0] + msg]
  }

  /** A message that fits goes into the newest file and nothing else changes; one
      that does not fit starts a new file, and the oldest one goes. */
  lemma SinkRotatesIff(log: seq<string>, maxSize: nat, msg: string)
    requires log != []
    ensures |log[0]| + |msg| <= maxSize ==> Sink(log, maxSize, msg) == log[0 := log[0] + msg]
    ensures |log[0]| + |msg| > maxSize ==> Sink(log, maxSize, msg) == [msg] + log[..|log| - 1]
  {
  }

  function Run(log: seq<string>, maxSize: nat, msgs: seq<string>): (r: seq<string>)
    requires log != []
    ensures |r| == |log|
  {
    if msgs == [] then log
    else Sink(Run(log, maxSize, msgs[..|msgs| - 1]), maxSize, msgs[|msgs| - 1])
  }

  function Rotations(log: seq<string>, maxSize: nat, msgs: seq<string>): nat
    requires log != []
  {
    if msgs == [] then 0
    else
      var before := msgs[..|msgs| - 1];
      Rotations(log, maxSize, before)
      + (if Rotates(Run(log, maxSize, before), maxSize, msgs[|msgs| - 1]) then 1 else 0)
  }

  /** The oldest file's text is all a message can push out. */
  function PushedOut(log: seq<string>, maxSize: nat, msg: string): string
    requires log != []
  {
    if Rotates(log, maxSize, msg) then log[|log| - 1] else ""
  }

  lemma {:induction false} StreamSplit(log: seq<string>)
    requires log != []
    ensures Stream(log) == log[|log| - 1] + Stream(log[..|log| - 1])
  {
    if |log| == 1 {
    } else {
      StreamSplit(log[1..]);
      var front := log[..|log| - 1];
      assert log[1..][..|log| - 2] == front[1..];
      assert log[|log| - 1] + (Stream(front[1..]) + front[0]) == log[|log| - 1] + Stream(front[1..]) + front[0];
    }
  }

  /** Nothing but the oldest file is lost, and the message comes last. */
  lemma SinkConserves(log: seq<string>, maxSize: nat, msg: string)
    requires log != []
    ensures Stream(log) + msg == PushedOut(log, maxSize, msg) + Stream(Sink(log, maxSize, msg))
  {
    var after := Sink(log, maxSize, msg);
    assert Stream(after) == Stream(after[1..]) + after[0] && Stream(log) == Stream(log[1..]) + log[0];
    StreamSplit(log);
    if Rotates(log, maxSize, msg) {
      var front := log[..|log| - 1];
      assert after[1..] == front && after[0] == msg;
      hide Stream;
      AppendLast(log[|log| - 1], Stream(front), msg);
    } else {
      assert after[1..] == log[1..] && after[0] == log[0] + msg;
      hide Stream;
      AppendLast(Stream(log[1..]), log[0], msg);
    }
  }

  lemma AppendLast(a: string, b: string, c: string)
    ensures a + b + c == a + (b + c) == "" + (a + (b + c))
  {
  }

  function Lost(log: seq<string>, maxSize: nat, msgs: seq<string>): string
    requires log != []
  {
    if msgs == [] then ""
    else
      var before := msgs[..|msgs| - 1];
      Lost(log, maxSize, before) + PushedOut(Run(log, maxSize, before), maxSize, msgs[|msgs| - 1])
  }

  /** After any sequence of messages the files hold a suffix of the first
      stream and all messages; what is missing is what was pushed out. */
  lemma {:induction false} RunKeepsSuffix(log: seq<string>, maxSize: nat, msgs: seq<string>)
    requires log != []
    ensures Stream(log) + Concat(msgs) == Lost(log, maxSize, msgs) + Stream(Run(log, maxSize, msgs))
  {
    if msgs == [] {
      assert Stream(log) + "" == "" + Stream(log);
    } else {
      var before, msg := msgs[..|msgs| - 1], msgs[|msgs| - 1];
      var mid := Run(log, maxSize, before);
      RunKeepsSuffix(log, maxSize, before);
      SinkConserves(mid, maxSize, msg);
      Reassociate(Stream(log), Concat(before), msg, Lost(log, maxSize, before), Stream(mid),
                  PushedOut(mid, maxSize, msg), Stream(Sink(mid, maxSize, msg)));
    }
  }

  lemma Reassociate(a: string, b: string, msg: string, lost: string, mid: string, out: string, rest: string)
    requires a + b == lost + mid && mid + msg == out + rest
    ensures a + (b + msg) == (lost + out) + rest
  {
    assert a + (b + msg) == (a + b) + msg == lost + (mid + msg);
  }

  predicate OldestEmpty(log: seq<string>, count: int)
  {
    forall i :: 0 <= i < |log| && i >= |log| - count ==> log[i] == ""
  }

  /** While there were no more rotations than unused files, nothing is lost. */
  lemma {:induction false} NothingLost(log: seq<string>, maxSize: nat, msgs: seq<string>, unused: nat)
    requires log != [] && unused < |log| && OldestEmpty(log, unused)
    ensures OldestEmpty(Run(log, maxSize, msgs), unused - Rotations(log, maxSize, msgs))
    ensures Rotations(log, maxSize, msgs) <= unused ==> Lost(log, maxSize, msgs) == ""
  {
    if msgs != [] {
      NothingLost(log, maxSize, msgs[..|msgs| - 1], unused);
    }
  }

  // ---- Messages stay whole ----

  /** The newest file holds the last messages of the list, the next file the
      messages before those, and so on. */
  ghost predicate HoldsLast(log: seq<string>, msgs: seq<string>)
  {
    log == [] || exists k: nat :: HoldsFrom(log, msgs, k)
  }

  ghost predicate HoldsFrom(log: seq<string>, msgs: seq<string>, k: nat)
    requires log != []
  {
    k <= |msgs| && log[0] == Concat(msgs[k..]) && HoldsLast(log[1..], msgs[..k])
  }

  function Reversed(log: seq<string>): (r: seq<string>)
    ensures |r| == |log|
  {
    if log == [] then [] else Reversed(log[1..]) + [log[0]]
  }

  lemma {:induction false} HoldsAtStart(log: seq<string>)
    ensures HoldsLast(log, Reversed(log))
  {
    if log != [] {
      var all, k := Reversed(log), |log| - 1;
      HoldsAtStart(log[1..]);
      assert all[k..] == [log[0]] && all[..k] == Reversed(log[1..]);
      assert Concat([log[0]]) == log[0] by { assert [log[0]][..0] == []; assert "" + log[0] == log[0]; }
      assert HoldsFrom(log, all, k);
    }
  }

  lemma {:induction false} HoldsWithoutOldest(log: seq<string>, msgs: seq<string>)
    requires log != [] && HoldsLast(log, msgs)
    ensures HoldsLast(log[..|log| - 1], msgs)
  {
    if |log| > 1 {
      var k: nat :| HoldsFrom(log, msgs, k);
      HoldsWithoutOldest(log[1..], msgs[..k]);
      var front := log[..|log| - 1];
      assert front[1..] == log[1..][..|log| - 2];
      assert HoldsFrom(front, msgs, k);
    }
  }

  lemma SinkHoldsLast(log: seq<string>, maxSize: nat, msg: string, msgs: seq<string>)
    requires log != [] && HoldsLast(log, msgs)
    ensures HoldsLast(Sink(log, maxSize, msg), msgs + [msg])
  {
    var after, all := Sink(log, maxSize, msg), msgs + [msg];
    if Rotates(log, maxSize, msg) {
      HoldsWithoutOldest(log, msgs);
      var k := |msgs|;
      assert all[k..] == [msg] && all[..k] == msgs && after[1..] == log[..|log| - 1];
      assert Concat([msg]) == msg by { assert [msg][..0] == []; assert "" + msg == msg; }
      assert HoldsFrom(after, all, k);
    } else {
      var k: nat :| HoldsFrom(log, msgs, k);
      assert all[k..] == msgs[k..] + [msg] && all[..k] == msgs[..k];
      assert (msgs[k..] + [msg])[..|msgs| - k] == msgs[k..];
      assert after[1..] == log[1..];
      assert HoldsFrom(after, all, k);
    }
  }

  /** No message is ever split or reordered: each file holds consecutive whole
      messages (the text found at the start counting as one per file). */
  lemma {:induction false} RunKeepsMessagesWhole(log: seq<string>, maxSize: nat, msgs: seq<string>)
    requires log != []
    ensures HoldsLast(Run(log, maxSize, msgs), Reversed(log) + msgs)
  {
    if msgs == [] {
      HoldsAtStart(log);
      assert Reversed(log) + [] == Reversed(log);
    } else {
      var before, msg := msgs[..|msgs| - 1], msgs[|msgs| - 1];
      RunKeepsMessagesWhole(log, maxSize, before);
      SinkHoldsLast(Run(log, maxSize, before), maxSize, msg, Reversed(log) + before);
      assert Reversed(log) + before + [msg] == Reversed(log) + msgs;
    }
  }

  lemma {:induction false} ConcatSplit(a: seq<string>, b: seq<string>)
    ensures Concat(a + b) == Concat(a) + Concat(b)
  {
    if b == [] {
      assert a + b == a && Concat(a) + "" == Concat(a);
    } else {
      var front := b[..|b| - 1];
      ConcatSplit(a, front);
      assert (a + b)[..|a + b| - 1] == a + front;
      assert Concat(a) + (Concat(front) + b[|b| - 1]) == Concat(a) + Concat(front) + b[|b| - 1];
    }
  }

  /** So the stream begins at the start of a message. */
  lemma {:induction false} StreamStartsAtMessage(log: seq<string>, msgs: seq<string>) returns (k: nat)
    requires HoldsLast(log, msgs)
    ensures k <= |msgs| && Stream(log) == Concat(msgs[k..])
  {
    if log == [] {
      k := |msgs|;
    } else {
      var m: nat :| HoldsFrom(log, msgs, m);
      k := StreamStartsAtMessage(log[1..], msgs[..m]);
      ConcatSplit(msgs[..m][k..], msgs[m..]);
      assert msgs[k..] == msgs[..m][k..] + msgs[m..];
    }
  }

  // ---- Sizes ----

  /** No file outgrows the limit, unless a single message does. */
  lemma {:induction false} RunBoundsFiles(log: seq<string>, maxSize: nat, msgs: seq<string>, bound: nat)
    requires log != [] && bound >= maxSize
    requires forall i :: 0 <= i < |log| ==> |log[i]| <= bound
    requires forall i :: 0 <= i < |msgs| ==> |msgs[i]| <= bound
    ensures forall i :: 0 <= i < |log| ==> |Run(log, maxSize, msgs)[i]| <= bound
    ensures msgs != [] ==>
      var newest, last := |Run(log, maxSize, msgs)[0]|, |msgs[|msgs| - 1]|;
      newest <= maxSize || newest == last
  {
    if msgs != [] {
      RunBoundsFiles(log, maxSize, msgs[..|msgs| - 1], bound);
    }
  }

  /** No rotation comes early: each file written before a rotation of the run,
      together with the message that caused it and begins the next file, exceeds
      the limit. firsts are these messages, newest first. */
  lemma {:induction false} RotationsAreForced(log: seq<string>, maxSize: nat, msgs: seq<string>)
    returns (firsts: seq<string>)
    requires log != []
    ensures |firsts| == Rotations(log, maxSize, msgs)
    ensures forall i :: 0 <= i < |firsts| ==> firsts[i] in msgs
    ensures var after := Run(log, maxSize, msgs);
      forall i :: 0 <= i < |firsts| && i + 1 < |log| ==>
        firsts[i] <= after[i] && |after[i + 1]| + |firsts[i]| > maxSize
  {
    if msgs == [] {
      firsts := [];
    } else {
      var front, msg := msgs[..|msgs| - 1], msgs[|msgs| - 1];
      var before := Run(log, maxSize, front);
      var earlier := RotationsAreForced(log, maxSize, front);
      assert msgs == front + [msg];
      SinkRotatesIff(before, maxSize, msg);
      firsts := if Rotates(before, maxSize, msg) then [msg] + earlier else earlier;
      var after := Run(log, maxSize, msgs);
      assert after == Sink(before, maxSize, msg);
      forall i | 0 <= i < |firsts| && i + 1 < |log|
        ensures firsts[i] <= after[i] && |after[i + 1]| + |firsts[i]| > maxSize
      {
        if Rotates(before, maxSize, msg) && i > 0 {
          assert firsts[i] == earlier[i - 1] && after[i] == before[i - 1] && after[i + 1] == before[i];
        }
      }
    }
  }

  // ---- File names ----

  /** The name of file number index, as the format library prints it. */
  function CalcFilename(filename: string, index: nat): string
  {
    if index > 0 then B.Render("{}.{}", 0, [filename, Decimal(index)]).text
    else B.Render("{}", 0, [filename]).text
  }

  lemma CalcFilenameIs(filename: string, index: nat)
    ensures CalcFilename(filename, index) == if index > 0 then filename + "." + Decimal(index) else filename
  {
    if index > 0 {
      var args := [filename, Decimal(index)];
      assert "{}" + ".{}" == "{}.{}" && ".{}"[0..] == ".{}" && ".{}"[1..] == "{}" && "{}" + "" == "{}";
      B.AutoRenders(".{}", 0, args);
      B.PlainStep(".{}", 0, 1, args);
      B.AutoRenders("", 1, args);
      assert B.Render("", 2, args).text == "";
    } else {
      assert "{}" + "" == "{}";
      B.AutoRenders("", 0, [filename]);
    }
  }

  /** Different numbers give different files. */
  lemma FilenamesDistinct(filename: string, i: nat, j: nat)
    requires CalcFilename(filename, i) == CalcFilename(filename, j)
    ensures i == j
  {
    CalcFilenameIs(filename, i);
    CalcFilenameIs(filename, j);
    var stem := filename + ".";
    if i > 0 && j > 0 {
      assert (stem + Decimal(i))[|stem|..] == Decimal(i) && (stem + Decimal(j))[|stem|..] == Decimal(j);
      DecimalInjective(i, j);
    }
  }

  // ---- The sink and the files ----

  datatype File = Missing | Present(text: string)
  {
    function Text(): string { if Missing? then "" else text }
  }

  function Lookup(disk: map<string, string>, name: string): File
  {
    if name in disk then Present(disk[name]) else Missing
  }

  /** File number index of the log. */
  function Numbered(disk: map<string, string>, filename: string, index: nat): File
  {
    Lookup(disk, CalcFilename(filename, index))
  }

  /** Removing target if it is there, then renaming src to it if src is there. */
  function Moved(disk: map<string, string>, src: string, target: string): map<string, string>
  {
    if src in disk then (disk - {target, src})[target := disk[src]] else disk - {target}
  }

  /** The state of the files while rotating: numbers above i have moved up, i
      is vacated unless it is the oldest, and everything else is as it was. */
  ghost predicate Shifted(now: map<string, string>, was: map<string, string>, filename: string, maxFiles: nat, i: nat)
  {
    && (forall j :: i < j <= maxFiles ==> Numbered(now, filename, j) == Numbered(was, filename, j - 1))
    && (i < maxFiles ==> Numbered(now, filename, i) == Missing)
    && (i == maxFiles ==> Numbered(now, filename, i) == Numbered(was, filename, i))
    && (forall j :: 0 <= j < i ==> Numbered(now, filename, j) == Numbered(was, filename, j))
    && OthersSame(now, was, filename, maxFiles)
  }

  /** Files that do not belong to the log are not touched. */
  ghost predicate OthersSame(now: map<string, string>, was: map<string, string>, filename: string, maxFiles: nat)
  {
    forall name :: !IsNumbered(name, filename, maxFiles) ==> Lookup(now, name) == Lookup(was, name)
  }

  ghost predicate IsNumbered(name: string, filename: string, maxFiles: nat)
  {
    exists i :: 0 <= i <= maxFiles && name == CalcFilename(filename, i)
  }

  lemma ShiftStep(now: map<string, string>, was: map<string, string>, filename: string, maxFiles: nat, i: nat)
    requires 0 < i <= maxFiles && Shifted(now, was, filename, maxFiles, i)
    ensures Shifted(Moved(now, CalcFilename(filename, i - 1), CalcFilename(filename, i)),
                    was, filename, maxFiles, i - 1)
  {
    hide CalcFilename;
    var src, target := CalcFilename(filename, i - 1), CalcFilename(filename, i);
    var next := Moved(now, src, target);
    forall j | 0 <= j <= maxFiles
      ensures j == i ==> Numbered(next, filename, j) == Numbered(now, filename, i - 1)
      ensures j == i - 1 ==> Numbered(next, filename, j) == Missing
      ensures j != i && j != i - 1 ==> Numbered(next, filename, j) == Numbered(now, filename, j)
    {
      if CalcFilename(filename, j) == src { FilenamesDistinct(filename, j, i - 1); }
      if CalcFilename(filename, j) == target { FilenamesDistinct(filename, j, i); }
      if src == target { FilenamesDistinct(filename, i - 1, i); }
    }
    forall name | !IsNumbered(name, filename, maxFiles) ensures Lookup(next, name) == Lookup(was, name) {
      assert name != src && name != target;
    }
  }

  /** Emptying file 0 completes the rotation. */
  lemma ShiftDone(now: map<string, string>, was: map<string, string>, filename: string, maxFiles: nat)
    requires Shifted(now, was, filename, maxFiles, 0)
    ensures Rotated(now[CalcFilename(filename, 0) := ""], was, filename, maxFiles)
  {
    hide CalcFilename;
    var next := now[CalcFilename(filename, 0) := ""];
    forall j | 0 < j <= maxFiles ensures Numbered(next, filename, j) == Numbered(was, filename, j - 1) {
      assert Numbered(now, filename, j) == Numbered(was, filename, j - 1);
      if CalcFilename(filename, j) == CalcFilename(filename, 0) { FilenamesDistinct(filename, j, 0); }
    }
    forall name | !IsNumbered(name, filename, maxFiles) ensures Lookup(next, name) == Lookup(was, name) {
      assert name != CalcFilename(filename, 0);
    }
  }

  /** Every file is the previous one, the first is empty, other files are left. */
  ghost predicate Rotated(now: map<string, string>, was: map<string, string>, filename: string, maxFiles: nat)
  {
    && Numbered(now, filename, 0) == Present("")
    && (forall i :: 0 < i <= maxFiles ==> Numbered(now, filename, i) == Numbered(was, filename, i - 1))
    && OthersSame(now, was, filename, maxFiles)
  }

  /** The texts of files 0 .. maxFiles, a missing file reading as empty. */
  ghost function LogOf(disk: map<string, string>, filename: string, maxFiles: nat): (log: seq<string>)
    ensures |log| == maxFiles + 1
    ensures forall i :: 0 <= i <= maxFiles ==> log[i] == Numbered(disk, filename, i).Text()
  {
    seq(maxFiles + 1, i requires 0 <= i => Numbered(disk, filename, i).Text())
  }

  lemma LogRotated(now: map<string, string>, was: map<string, string>, filename: string, maxFiles: nat)
    requires Rotated(now, was, filename, maxFiles)
    ensures LogOf(now, filename, maxFiles) == [""] + LogOf(was, filename, maxFiles)[..maxFiles]
  {
    hide CalcFilename, LogOf;
    var before, after := LogOf(was, filename, maxFiles), LogOf(now, filename, maxFiles);
    forall i | 0 <= i <= maxFiles ensures after[i] == ([""] + before[..maxFiles])[i] {
      if i > 0 {
        assert Numbered(now, filename, i) == Numbered(was, filename, i - 1);
      }
    }
  }

  lemma LogAppended(disk: map<string, string>, filename: string, maxFiles: nat, msg: string)
    requires CalcFilename(filename, 0) in disk
    ensures var name := CalcFilename(filename, 0);
      var next, log := disk[name := disk[name] + msg], LogOf(disk, filename, maxFiles);
      LogOf(next, filename, maxFiles) == log[0 := log[0] + msg] && OthersSame(next, disk, filename, maxFiles)
  {
    hide CalcFilename, LogOf;
    var name := CalcFilename(filename, 0);
    var next := disk[name := disk[name] + msg];
    var log, after := LogOf(disk, filename, maxFiles), LogOf(next, filename, maxFiles);
    forall i | 0 <= i <= maxFiles ensures after[i] == log[0 := log[0] + msg][i] {
      if CalcFilename(filename, i) == name { FilenamesDistinct(filename, i, 0); }
    }
    forall other | !IsNumbered(other, filename, maxFiles) ensures Lookup(next, other) == Lookup(disk, other) {
      assert other != name;
    }
  }

  lemma OthersSameAs(disk: map<string, string>, filename: string, maxFiles: nat)
    ensures OthersSame(disk, disk, filename, maxFiles)
  {
  }

  lemma OthersSameThrough(now: map<string, string>, mid: map<string, string>, was: map<string, string>,
                          filename: string, maxFiles: nat)
    requires OthersSame(now, mid, filename, maxFiles) && OthersSame(mid, was, filename, maxFiles)
    ensures OthersSame(now, was, filename, maxFiles)
  {
    hide IsNumbered, Lookup;
  }

  lemma FirstIsEmpty(now: map<string, string>, was: map<string, string>, filename: string, maxFiles: nat)
    requires Rotated(now, was, filename, maxFiles)
    ensures CalcFilename(filename, 0) in now && now[CalcFilename(filename, 0)] == ""
    ensures OthersSame(now, was, filename, maxFiles)
  {
    hide CalcFilename;
  }

  lemma RotateThenAppend(log: seq<string>, msg: string)
    requires log != []
    ensures var rotated := [""] + log[..|log| - 1];
      rotated[0 := rotated[0] + msg] == [msg] + log[..|log| - 1]
  {
    assert "" + msg == msg;
  }

  class RotatingFileSink {
    const filename: string
    const maxSize: nat
    const maxFiles: nat
    var currentSize: nat
    var disk: map<string, string>
    var isOpen: bool

    /** The first file is open, and its size is known. */
    ghost predicate Valid()
      reads this
    {
      isOpen && CalcFilename(filename, 0) in disk && currentSize == |disk[CalcFilename(filename, 0)]|
    }

    ghost function Log(): seq<string>
      reads this
    {
      LogOf(disk, filename, maxFiles)
    }

    /** Opens file 0 for appending, and asks for its size once. */
    constructor (filename: string, maxSize: nat, maxFiles: nat, disk: map<string, string>)
      ensures this.filename == filename && this.maxSize == maxSize && this.maxFiles == maxFiles
      ensures Valid() && Log() == LogOf(disk, filename, maxFiles)
      ensures OthersSame(this.disk, disk, filename, maxFiles)
    {
      this.filename := filename;
      this.maxSize := maxSize;
      this.maxFiles := maxFiles;
      var name := CalcFilename(filename, 0);
      var text := if name in disk then disk[name] else "";
      this.disk := disk[name := text];
      this.currentSize := |text|;
      this.isOpen := true;
      new;
      LogOpened(disk, filename, maxFiles);
    }

    /** One message: the log becomes what Sink says, and no other file changes. */
    method SinkIt(msg: string)
      requires Valid()
      modifies this
      ensures Valid()
      ensures Log() == Sink(old(Log()), maxSize, msg)
      ensures |old(Log())[0]| + |msg| <= maxSize ==> Log() == old(Log())[0 := old(Log())[0] + msg]
      ensures |old(Log())[0]| + |msg| > maxSize ==> Log() == [msg] + old(Log())[..maxFiles]
      ensures OthersSame(disk, old(disk), filename, maxFiles)
    {
      ghost var log := Log();
      SinkRotatesIff(log, maxSize, msg);
      var name := CalcFilename(filename, 0);
      assert |log[0]| == currentSize;
      OthersSameAs(disk, filename, maxFiles);
      hide CalcFilename, LogOf, OthersSame, Rotated, Numbered;
      currentSize := currentSize + |msg|;
      if currentSize > maxSize {
        Rotate();
        LogRotated(disk, old(disk), filename, maxFiles);
        FirstIsEmpty(disk, old(disk), filename, maxFiles);
        RotateThenAppend(log, msg);
        currentSize := |msg|;
      }
      LogAppended(disk, filename, maxFiles, msg);
      OthersSameThrough(disk[name := disk[name] + msg], disk, old(disk), filename, maxFiles);
      disk := disk[name := disk[name] + msg];
    }

    /** Every file moves to the next number, the oldest one is removed, and
        file 0 is started afresh. */
    method Rotate()
      requires isOpen
      modifies this`disk, this`isOpen
      ensures isOpen && Rotated(disk, old(disk), filename, maxFiles)
    {
      hide CalcFilename, Shifted, Rotated;
      isOpen := false;
      var i := maxFiles;
      ShiftStarts(disk, filename, maxFiles);
      while i > 0
        invariant 0 <= i <= maxFiles
        invariant Shifted(disk, old(disk), filename, maxFiles, i)
      {
        var src, target := CalcFilename(filename, i - 1), CalcFilename(filename, i);
        ShiftStep(disk, old(disk), filename, maxFiles, i);
        if src == target { FilenamesDistinct(filename, i - 1, i); }
        ghost var before := disk;
        if target in disk {
          disk := disk - {target};
        }
        if src in disk {
          disk := (disk - {src})[target := disk[src]];
        }
        assert disk == Moved(before, src, target);
        i := i - 1;
      }
      ShiftDone(disk, old(disk), filename, maxFiles);
      disk := disk[CalcFilename(filename, 0) := ""];
      isOpen := true;
    }
  }

  lemma ShiftStarts(disk: map<string, string>, filename: string, maxFiles: nat)
    ensures Shifted(disk, disk, filename, maxFiles, maxFiles)
  {
  }

  lemma LogOpened(disk: map<string, string>, filename: string, maxFiles: nat)
    ensures var name := CalcFilename(filename, 0);
      var next := disk[name := if name in disk then disk[name] else ""];
      LogOf(next, filename, maxFiles) == LogOf(disk, filename, maxFiles) && OthersSame(next, disk, filename, maxFiles)
  {
    hide CalcFilename, LogOf;
    var name := CalcFilename(filename, 0);
    var next := disk[name := if name in disk then disk[name] else ""];
    forall i | 0 <= i <= maxFiles
      ensures LogOf(next, filename, maxFiles)[i] == LogOf(disk, filename, maxFiles)[i]
    {
      if CalcFilename(filename, i) == name { FilenamesDistinct(filename, i, 0); }
    }
    forall other | !IsNumbered(other, filename, maxFiles) ensures Lookup(next, other) == Lookup(disk, other) {
      assert other != name;
    }
  }
}
