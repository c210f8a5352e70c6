/** The line table of a function: differences in bytes with absolute checkpoints (lcode.c:318-376, 1787-1790), and
    its reader (ldebug.c:50-98, 873-891). */
module LineInfo {

  const ABSLINEINFO: int := -128
  const LIMLINEDIFF: int := 128
  const MAXIWTHABS: nat := 128

  datatype AbsLineInfo = AbsLineInfo(pc: nat, line: int)

  // ----- what a table means -----

  /** The line before instruction `pc`. */
  function Before(defined: int, lines: seq<int>, pc: nat): int
    requires pc <= |lines|
  {
    if pc == 0 then defined else lines[pc - 1]
  }

  /** Entry `pc` of the table is the difference to the line before, or the mark of an absolute one. */
  predicate Entry(defined: int, lines: seq<int>, info: seq<int>, pc: nat)
    requires pc < |lines| == |info|
  {
    info[pc] == ABSLINEINFO || (-LIMLINEDIFF < info[pc] < LIMLINEDIFF &&
      lines[pc] == Before(defined, lines, pc) + info[pc])
  }

  /** Checkpoint `i` gives the line of a marked entry, and is not too far from the one before. */
  predicate MarkAt(lines: seq<int>, info: seq<int>, marks: seq<AbsLineInfo>, i: nat)
    requires |lines| == |info| && i < |marks|
  {
    && marks[i].pc < |info| && info[marks[i].pc] == ABSLINEINFO && marks[i].line == lines[marks[i].pc]
    && marks[i].pc <= (if i == 0 then 0 else marks[i - 1].pc) + MAXIWTHABS
  }

  predicate HasMark(marks: seq<AbsLineInfo>, p: nat) {
    exists i {:trigger marks[i]} :: 0 <= i < |marks| && marks[i].pc == p
  }

  /** The absolute entries are those marked, in order and not too far apart. */
  predicate Checkpoints(lines: seq<int>, info: seq<int>, marks: seq<AbsLineInfo>)
    requires |lines| == |info|
  {
    && (forall i {:trigger MarkAt(lines, info, marks, i)} :: 0 <= i < |marks| ==> MarkAt(lines, info, marks, i))
    && (forall i, j {:trigger marks[i], marks[j]} :: 0 <= i < j < |marks| ==> marks[i].pc < marks[j].pc)
    && (forall p {:trigger HasMark(marks, p)} :: 0 <= p < |info| && info[p] == ABSLINEINFO ==> HasMark(marks, p))
  }

  predicate Encodes(defined: int, lines: seq<int>, info: seq<int>, marks: seq<AbsLineInfo>) {
    && |lines| == |info| && (forall p {:trigger Entry(defined, lines, info, p)} :: 0 <= p < |info| ==>
      Entry(defined, lines, info, p))
    && Checkpoints(lines, info, marks)
  }

  /** The last checkpoint, counted from the start of the code. */
  function LastMark(marks: seq<AbsLineInfo>): nat { if marks == [] then 0 else marks[|marks| - 1].pc }

  /** Checkpoint `i` lies no further than the reader's estimate assumes. */
  lemma {:induction false} MarkBound(lines: seq<int>, info: seq<int>, marks: seq<AbsLineInfo>, i: nat)
    requires |lines| == |info| && Checkpoints(lines, info, marks) && i < |marks|
    ensures marks[i].pc <= MAXIWTHABS * (i + 1)
  {
    assert MarkAt(lines, info, marks, i);
    if i > 0 { MarkBound(lines, info, marks, i - 1); }
  }

  /** The estimate of 'getbaseline' is a lower bound of the right checkpoint (ldebug.c:69-72). */
  lemma EstimateValid(lines: seq<int>, info: seq<int>, marks: seq<AbsLineInfo>, pc: nat)
    requires |lines| == |info| && Checkpoints(lines, info, marks) && pc < |info|
    requires |info| <= LastMark(marks) + MAXIWTHABS
    ensures var i := pc / MAXIWTHABS - 1; i < 0 || (i < |marks| && marks[i].pc <= pc)
  {
    var i := pc / MAXIWTHABS - 1;
    if marks != [] { MarkBound(lines, info, marks, |marks| - 1); }
    if 0 <= i < |marks| { MarkBound(lines, info, marks, i); }
  }

  lemma EncodesPrefix(defined: int, lines: seq<int>, info: seq<int>, marks: seq<AbsLineInfo>, marks': seq<AbsLineInfo>)
    requires Encodes(defined, lines, info, marks) && lines != []
    requires marks' == if info[|info| - 1] == ABSLINEINFO then marks[..|marks| - (if marks == [] then 0 else 1)]
      else marks
    ensures info[|info| - 1] == ABSLINEINFO ==> marks != [] && marks[|marks| - 1].pc == |info| - 1
    ensures Encodes(defined, lines[..|lines| - 1], info[..|info| - 1], marks')
  {
    var n := |info| - 1;
    var lines', info' := lines[..n], info[..n];
    if info[n] == ABSLINEINFO {
      assert HasMark(marks, n);
      assert MarkAt(lines, info, marks, |marks| - 1);
    }
    forall p | 0 <= p < n ensures Entry(defined, lines', info', p) { assert Entry(defined, lines, info, p); }
    forall i | 0 <= i < |marks'| ensures MarkAt(lines', info', marks', i) {
      assert MarkAt(lines, info, marks, i);
      if info[n] == ABSLINEINFO { assert marks[i].pc < marks[|marks| - 1].pc; }
    }
    forall p | 0 <= p < n && info'[p] == ABSLINEINFO ensures HasMark(marks', p) {
      assert info[p] == ABSLINEINFO && HasMark(marks, p);
      var i :| 0 <= i < |marks| && marks[i].pc == p;
      assert marks'[i] == marks[i];
    }
  }

  /** Another entry, absolute or relative and right. */
  lemma Saved(defined: int, lines: seq<int>, info: seq<int>, marks: seq<AbsLineInfo>, line: int, dif: int,
      marks': seq<AbsLineInfo>)
    requires Encodes(defined, lines, info, marks) && |info| <= LastMark(marks) + MAXIWTHABS
    requires marks' == if dif == ABSLINEINFO then marks + [AbsLineInfo(|info|, line)] else marks
    requires dif == ABSLINEINFO || -LIMLINEDIFF < dif < LIMLINEDIFF
    ensures dif == ABSLINEINFO || line == Before(defined, lines, |lines|) + dif ==>
      Encodes(defined, lines + [line], info + [dif], marks')
  {
    if dif == ABSLINEINFO || line == Before(defined, lines, |lines|) + dif {
      var lines', info' := lines + [line], info + [dif];
      forall p | 0 <= p < |info'| ensures Entry(defined, lines', info', p) {
        if p < |info| { assert Entry(defined, lines, info, p); }
      }
      forall i | 0 <= i < |marks'| ensures MarkAt(lines', info', marks', i) {
        if i < |marks| { assert MarkAt(lines, info, marks, i); }
      }
      forall i, j | 0 <= i < j < |marks'| ensures marks'[i].pc < marks'[j].pc { assert MarkAt(lines, info, marks, i); }
      forall p | 0 <= p < |info'| && info'[p] == ABSLINEINFO ensures HasMark(marks', p) {
        if p < |info| {
          assert info[p] == ABSLINEINFO && HasMark(marks, p);
          var i :| 0 <= i < |marks| && marks[i].pc == p;
          assert marks'[i].pc == p;
        } else {
          assert marks'[|marks|].pc == p;
        }
      }
    }
  }

  /** Whether the entry of a line is absolute. */
  predicate Absolute(previousline: int, iwthabs: nat, line: int) {
    line - previousline >= LIMLINEDIFF || line - previousline <= -LIMLINEDIFF || iwthabs >= MAXIWTHABS
  }

  /** One entry less. */
  lemma Shorter(defined: int, lines: seq<int>, info: seq<int>, marks: seq<AbsLineInfo>, n: nat)
    requires Encodes(defined, lines, info, marks) && |info| <= LastMark(marks) + MAXIWTHABS && |info| == n + 1
    ensures info[n] == ABSLINEINFO ==> marks != []
    ensures info[n] != ABSLINEINFO ==> lines[n] == Before(defined, lines, n) + info[n] && |info| > LastMark(marks)
    ensures var marks' := if info[n] == ABSLINEINFO then marks[..|marks| - 1] else marks;
      Encodes(defined, lines[..n], info[..n], marks') && n <= LastMark(marks') + MAXIWTHABS
      && (info[n] != ABSLINEINFO ==> n >= LastMark(marks))
  {
    var marks' := if info[n] == ABSLINEINFO then marks[..|marks| - (if marks == [] then 0 else 1)] else marks;
    EncodesPrefix(defined, lines, info, marks, marks');
    assert Entry(defined, lines, info, n);
    assert marks == [] || MarkAt(lines, info, marks, |marks| - 1);
  }

  // ----- removing several lines in a row -----

  /** The first absolute entry from `m` on, or the end. */
  function FirstMark(info: seq<int>, m: nat): (p: nat)
    requires m <= |info|
    ensures m <= p <= |info| && (p < |info| ==> info[p] == ABSLINEINFO)
    ensures forall q :: m <= q < p ==> info[q] != ABSLINEINFO
    decreases |info| - m
  {
    if m == |info| || info[m] == ABSLINEINFO then m else FirstMark(info, m + 1)
  }

  /** How far the absolute entries from `m` on lead, all together. */
  function Jumps(defined: int, lines: seq<int>, info: seq<int>, m: nat): int
    requires m <= |lines| == |info|
    decreases |info| - m
  {
    if m == |info| then 0
    else (if info[m] == ABSLINEINFO then lines[m] - Before(defined, lines, m)
      else 0) + Jumps(defined, lines, info, m + 1)
  }

  lemma {:induction false} NoJumps(defined: int, lines: seq<int>, info: seq<int>, m: nat)
    requires m <= |lines| == |info| && FirstMark(info, m) == |info|
    ensures Jumps(defined, lines, info, m) == 0
    decreases |info| - m
  {
    if m < |info| { NoJumps(defined, lines, info, m + 1); }
  }

  /** When the instructions from `m` on can be removed and one of line `line` be saved: there is no absolute entry among
      them, or the first one follows at most one relative one, or all of them together lead nowhere, or the new line is
      far from where they lead. */
  predicate Harmless(defined: int, lines: seq<int>, info: seq<int>, m: nat, line: int)
    requires m <= |lines| == |info|
  {
    var p := FirstMark(info, m);
    var d := line - Before(defined, lines, m) - Jumps(defined, lines, info, m);
    p == |info| || p - m <= 1 || Jumps(defined, lines, info, m) == 0 || d >= LIMLINEDIFF || d <= -LIMLINEDIFF
  }

  /** Removing an absolute entry and the two relative ones before it can go wrong: the new line 998 is saved as a
      difference to 998, and read as that to line 0, where the function begins. */
  method ThreeRemoved() returns (t: LineTable)
    ensures t.lines == [998] && t.linedefined == 0 && t.lineinfo == [0] && t.abslineinfo == [] && !t.Valid()
    ensures forall lines :: Encodes(0, lines, t.lineinfo, t.abslineinfo) ==> lines == [0]
  {
    t := ThreeSaved();
    t.RemoveLastLineInfo();
    assert t.lineinfo == [1, 1] && t.previousline == 1000;
    t.RemoveLastLineInfo();
    assert t.lineinfo == [1] && t.previousline == 999;
    t.RemoveLastLineInfo();
    assert t.lineinfo == [] && t.lines == [] && t.previousline == 998 && t.iwthabs == MAXIWTHABS - 1;
    t.SaveLineInfo(998);
    forall lines | Encodes(0, lines, [0], []) ensures lines == [0] { assert Entry(0, lines, [0], 0); }
  }

  method ThreeSaved() returns (t: LineTable)
    ensures fresh(t) && t.Valid() && t.linedefined == 0 && t.previousline == 1000
    ensures t.lines == [1, 2, 1000] && t.lineinfo == [1, 1, ABSLINEINFO] && t.abslineinfo == [AbsLineInfo(2, 1000)]
  {
    t := new LineTable(0);
    t.SaveLineInfo(1);
    assert t.lines == [1];
    t.SaveLineInfo(2);
    assert t.lines == [1, 2];
    t.SaveLineInfo(1000);
    assert t.lines == [1, 2, 1000];
  }

  // ----- the table while a function is compiled, and its reader -----

  class LineTable {
    const linedefined: int
    var lineinfo: seq<int>
    var abslineinfo: seq<AbsLineInfo>
    var previousline: int
    var iwthabs: nat
    /** The plain array that the table stands for. */
    ghost var lines: seq<int>

    /** The table encodes the lines. The count of instructions since the last checkpoint may be too high, but not too
        low. */
    ghost predicate Valid()
      reads this
    {
      && Encodes(linedefined, lines, lineinfo, abslineinfo) && |lineinfo| <= LastMark(abslineinfo) + MAXIWTHABS
      && |lineinfo| - LastMark(abslineinfo) <= iwthabs <= MAXIWTHABS + 1
    }

    /** How far 'previousline' is from the line of the last instruction. */
    ghost function Drift(): int
      reads this
    {
      previousline - Before(linedefined, lines, |lines|)
    }

    /** The next entry is absolute, or 'previousline' is right. */
    ghost predicate Fits(line: int)
      reads this
    {
      iwthabs >= MAXIWTHABS || Drift() == 0 || line - previousline >= LIMLINEDIFF || line - previousline <= -LIMLINEDIFF
    }

    constructor (defined: int)
      ensures Valid() && lines == [] && linedefined == defined && Drift() == 0
      ensures lineinfo == [] && abslineinfo == [] && iwthabs == 0
    {
      linedefined, lineinfo, abslineinfo, previousline, iwthabs := defined, [], [], defined, 0;
      lines := [];
    }

    /** Saves the line of a new instruction (lcode.c:330-345); the table is right after that exactly if the line
        fits. */
    method SaveLineInfo(line: int)
      requires Valid()
      modifies this
      ensures lines == old(lines) + [line] && Drift() == 0 && (Valid() <==> old(Fits(line)))
      ensures if Absolute(old(previousline), old(iwthabs), line)
        then lineinfo == old(lineinfo) + [ABSLINEINFO] &&
          abslineinfo == old(abslineinfo) + [AbsLineInfo(|old(lineinfo)|, line)]
        else lineinfo == old(lineinfo) + [line - old(previousline)] && abslineinfo == old(abslineinfo)
      ensures iwthabs == if Absolute(old(previousline), old(iwthabs), line) then 1 else old(iwthabs) + 1
    {
      ghost var fits := Fits(line);
      var linedif := line - previousline;
      var pc := |lineinfo|;
      if linedif >= LIMLINEDIFF || linedif <= -LIMLINEDIFF || iwthabs >= MAXIWTHABS {
        abslineinfo := abslineinfo + [AbsLineInfo(pc, line)];
        linedif := ABSLINEINFO;
        iwthabs := 1;
      } else {
        iwthabs := iwthabs + 1;
      }
      lineinfo := lineinfo + [linedif];
      previousline := line;
      lines := lines + [line];
      Saved(linedefined, old(lines), old(lineinfo), old(abslineinfo), line, linedif, abslineinfo);
      if !fits { assert !Entry(linedefined, lines, lineinfo, pc); }
    }

    /** Removes the line of the last instruction (lcode.c:354-366). After an absolute entry the next one is forced to be
        absolute too, but a relative one removed after that counts down again. */
    method RemoveLastLineInfo()
      requires Valid() && lines != []
      modifies this
      ensures Valid() && lines == old(lines)[..|old(lines)| - 1] && lineinfo == old(lineinfo)[..|old(lines)| - 1]
      ensures if old(lineinfo)[|lines|] == ABSLINEINFO
        then iwthabs == MAXIWTHABS + 1 && previousline == old(previousline) && old(abslineinfo) != []
          && abslineinfo == old(abslineinfo)[..|old(abslineinfo)| - 1]
        else iwthabs == old(iwthabs) - 1 && Drift() == old(Drift()) && abslineinfo == old(abslineinfo)
    {
      var pc := |lineinfo| - 1;
      Shorter(linedefined, lines, lineinfo, abslineinfo, pc);
      if lineinfo[pc] != ABSLINEINFO {
        previousline := previousline - lineinfo[pc];
        iwthabs := iwthabs - 1;
      } else {
        abslineinfo := abslineinfo[..|abslineinfo| - 1];
        iwthabs := MAXIWTHABS + 1;
      }
      lineinfo := lineinfo[..pc];
      lines := lines[..pc];
    }

    /** Changes the line of the last instruction (lcode.c:1787-1790), which was saved just before. */
    method FixLine(line: int)
      requires Valid() && lines != []
      modifies this
      ensures lines == old(lines)[|old(lines)| - 1 := line] && Drift() == 0 && (old(Drift()) == 0 ==> Valid())
    {
      RemoveLastLineInfo();
      SaveLineInfo(line);
    }

    /** Removes the lines of the last `k` instructions. */
    method RemoveLast(k: nat)
      requires Valid() && Drift() == 0 && k <= |lines|
      modifies this
      ensures Valid() && lines == old(lines)[..|old(lines)| - k]
      ensures Drift() == Jumps(linedefined, old(lines), old(lineinfo), |lines|)
      ensures var p := FirstMark(old(lineinfo), |lines|);
        p < |old(lineinfo)| ==> iwthabs == MAXIWTHABS + 1 - (p - |lines|)
    {
      for i := 0 to k
        invariant Valid() && lines == old(lines)[..|old(lines)| - i] && lineinfo == old(lineinfo)[..|old(lines)| - i]
        invariant Drift() == Jumps(linedefined, old(lines), old(lineinfo), |lines|)
        invariant var p := FirstMark(old(lineinfo), |lines|);
          p < |old(lineinfo)| ==> iwthabs == MAXIWTHABS + 1 - (p - |lines|)
      {
        RemoveLastLineInfo();
      }
    }

    /** Removes the lines of the last `k` instructions and saves another one. The table is right after that exactly if
        the removal was harmless; and so it is if there are at most two. */
    method Recut(k: nat, line: int)
      requires Valid() && Drift() == 0 && k <= |lines|
      modifies this
      ensures lines == old(lines)[..|old(lines)| - k] + [line] && Drift() == 0
      ensures Valid() <==> old(Harmless(linedefined, lines, lineinfo, |lines| - k, line))
      ensures k <= 2 ==> Valid()
    {
      ghost var m := |lines| - k;
      if FirstMark(lineinfo, m) == |lineinfo| { NoJumps(linedefined, lines, lineinfo, m); }
      RemoveLast(k);
      SaveLineInfo(line);
    }

    // ----- reading -----

    /** The closest place before `pc` whose line is known (ldebug.c:63-78). */
    method GetBaseLine(pc: nat) returns (basepc: int, line: int)
      requires Valid() && pc < |lines|
      ensures -1 <= basepc <= pc && line == Before(linedefined, lines, basepc + 1)
      ensures forall p :: basepc < p <= pc ==> lineinfo[p] != ABSLINEINFO
    {
      if abslineinfo == [] || pc < abslineinfo[0].pc {
        basepc, line := -1, linedefined;
        forall p | basepc < p <= pc ensures lineinfo[p] != ABSLINEINFO { NoMark(p, 0); }
        return;
      }
      var i := pc / MAXIWTHABS - 1;
      EstimateValid(lines, lineinfo, abslineinfo, pc);
      while i + 1 < |abslineinfo| && pc >= abslineinfo[i + 1].pc
        invariant -1 <= i < |abslineinfo| && (i >= 0 ==> abslineinfo[i].pc <= pc)
        decreases |abslineinfo| - i
      {
        i := i + 1;
      }
      assert MarkAt(lines, lineinfo, abslineinfo, i);
      basepc, line := abslineinfo[i].pc, abslineinfo[i].line;
      forall p | basepc < p <= pc ensures lineinfo[p] != ABSLINEINFO { NoMark(p, i + 1); }
    }

    /** There is no checkpoint between two that follow each other. */
    lemma NoMark(p: nat, i: nat)
      requires Valid() && p < |lineinfo| && i <= |abslineinfo|
      requires i > 0 ==> abslineinfo[i - 1].pc < p
      requires i < |abslineinfo| ==> p < abslineinfo[i].pc
      ensures lineinfo[p] != ABSLINEINFO
    {
      forall j | 0 <= j < |abslineinfo| ensures abslineinfo[j].pc != p {
        if j < i { assert j == i - 1 || abslineinfo[j].pc < abslineinfo[i - 1].pc; }
        else { assert j == i || abslineinfo[i].pc < abslineinfo[j].pc; }
      }
      assert !HasMark(abslineinfo, p);
    }

    /** The line of an instruction (ldebug.c:86-98). */
    method GetFuncLine(pc: nat) returns (line: int)
      requires Valid() && pc < |lines|
      ensures line == lines[pc]
    {
      var basepc;
      basepc, line := GetBaseLine(pc);
      while basepc < pc
        invariant -1 <= basepc <= pc && line == Before(linedefined, lines, basepc + 1)
        invariant forall p :: basepc < p <= pc ==> lineinfo[p] != ABSLINEINFO
        decreases pc - basepc
      {
        basepc := basepc + 1;
        assert Entry(linedefined, lines, lineinfo, basepc);
        line := line + lineinfo[basepc];
      }
    }

    /** Whether two instructions are on different lines (ldebug.c:873-891). */
    method ChangedLine(oldpc: nat, newpc: nat) returns (changed: bool)
      requires Valid() && oldpc < newpc < |lines|
      ensures changed == (lines[oldpc] != lines[newpc])
    {
      if newpc - oldpc < MAXIWTHABS / 2 {
        var delta, pc := 0, oldpc;
        while true
          invariant oldpc <= pc < newpc && delta == lines[pc] - lines[oldpc]
          decreases newpc - pc
        {
          pc := pc + 1;
          var info := lineinfo[pc];
          if info == ABSLINEINFO {
            break;
          }
          assert Entry(linedefined, lines, lineinfo, pc);
          delta := delta + info;
          if pc == newpc {
            return delta != 0;
          }
        }
      }
      var l1 := GetFuncLine(oldpc);
      var l2 := GetFuncLine(newpc);
      changed := l1 != l2;
    }
  }

  // ----- whole compilations -----

  /** An instruction is emitted, the line of the last one corrected, or the last ones, two at most, are removed and
      another one emitted in their place. */
  datatype Op = Emit(line: int) | Fix(line: int) | Replace(k: nat, line: int)

  function Apply(lines: seq<int>, op: Op): seq<int> {
    match op
    case Emit(l) => lines + [l]
    case Fix(l) => if lines == [] then lines else lines[|lines| - 1 := l]
    case Replace(k, l) => if k <= |lines| then lines[..|lines| - k] + [l] else lines
  }

  function ApplyAll(lines: seq<int>, ops: seq<Op>): seq<int> {
    if ops == [] then lines else Apply(ApplyAll(lines, ops[..|ops| - 1]), ops[|ops| - 1])
  }

  /** After any compilation the table answers like the plain array of lines. */
  method Compile(defined: int, ops: seq<Op>, query: nat) returns (line: int)
    requires query < |ApplyAll([], ops)| && forall op <- ops :: op.Replace? ==> op.k <= 2
    ensures line == ApplyAll([], ops)[query]
  {
    var t := new LineTable(defined);
    for i := 0 to |ops|
      invariant t.Valid() && t.Drift() == 0 && t.lines == ApplyAll([], ops[..i])
    {
      assert ops[..i + 1][..i] == ops[..i];
      match ops[i] {
        case Emit(l) => t.SaveLineInfo(l);
        case Fix(l) => if t.lineinfo != [] { t.FixLine(l); }
        case Replace(k, l) => if k <= |t.lineinfo| { t.Recut(k, l); }
      }
    }
    assert ops[..|ops|] == ops;
    line := t.GetFuncLine(query);
  }
}
