/** verify of verif.c: a type stack with frame marks, updated token by token. */
module Verifier {
  import opened Words
  import opened Counting
  import opened Sume
  import opened StackMachine
  import opened Typing
  import opened Soundness
  import Typability

  datatype Mark = Mark(bottom: int, top: int)

  /** Frame i lies between its bottom and the next one's bottom, the innermost up to the top of the stack. */
  ghost predicate FrameAt(stack: seq<Ty>, stkPos: int, marks: seq<Mark>, cur: int, fs: seq<seq<Ty>>, i: int) {
    && 0 <= i <= cur < |marks| && i < |fs|
    && var top := if i == cur then stkPos else marks[i].top;
    && 0 <= marks[i].bottom <= top <= |stack|
    && fs[i] == stack[marks[i].bottom..top]
    && |Flatten(fs[..i + 1])| == top
    && (i < cur ==> marks[i + 1].bottom == top)
  }

  /** What pushing a type, or popping one, does to the lists. */
  lemma Pushed(vs: VState, t: Ty)
    requires vs.frames != []
    ensures var m := |vs.frames| - 1; var fs := vs.frames[..m] + [Last(vs) + [t]];
            && Replace(vs, 0, [t]) == (if |Flatten(vs.frames)| >= STACK_MAX then None else Some(vs.(frames := fs)))
            && |Flatten(fs)| == |Flatten(vs.frames)| + 1
  {
    assert Last(vs)[..|Last(vs)| - 0] == Last(vs);
    FlattenLast(vs.frames[..|vs.frames| - 1], Last(vs) + [t]);
  }

  lemma Popped(vs: VState)
    requires vs.frames != [] && Last(vs) != []
    ensures var m, last := |vs.frames| - 1, Last(vs); var fs := vs.frames[..m] + [last[..|last| - 1]];
            && Replace(vs, 1, []) == Some(vs.(frames := fs))
            && |Flatten(fs)| == |Flatten(vs.frames)| - 1
  {
    var m, last := |vs.frames| - 1, Last(vs);
    assert last[..|last| - 1] + [] == last[..|last| - 1];
    FlattenLast(vs.frames[..m], last[..|last| - 1]);
  }

  lemma PushKeepsOuter(stack: seq<Ty>, pos: nat, marks: seq<Mark>, cur: nat, fs: seq<seq<Ty>>, t: Ty,
                      fs': seq<seq<Ty>>, i: nat)
    requires cur + 1 == |fs| == |fs'| && |Flatten(fs)| == pos < |stack| && i < cur
    requires FrameAt(stack, pos, marks, cur, fs, i) && fs'[..cur] == fs[..cur]
    ensures FrameAt(stack[pos := t], pos + 1, marks, cur, fs', i)
  {
    FlattenPrefix(fs, i + 1);
    assert fs'[..i + 1] == fs'[..cur][..i + 1] == fs[..i + 1];
    assert fs'[i] == fs'[..i + 1][i] == fs[i];
  }

  lemma PushKeepsFrame(stack: seq<Ty>, pos: nat, marks: seq<Mark>, cur: nat, fs: seq<seq<Ty>>, t: Ty,
                      fs': seq<seq<Ty>>, i: nat)
    requires cur + 1 == |fs| && |Flatten(fs)| == pos < |stack| && i <= cur
    requires FrameAt(stack, pos, marks, cur, fs, i)
    requires fs' == fs[..cur] + [fs[cur] + [t]] && |Flatten(fs')| == pos + 1
    ensures FrameAt(stack[pos := t], pos + 1, marks, cur, fs', i)
  {
    if i < cur {
      assert fs'[..cur] == fs[..cur];
      PushKeepsOuter(stack, pos, marks, cur, fs, t, fs', i);
    } else {
      assert fs'[..i + 1] == fs';
      var b := marks[i].bottom;
      assert stack[pos := t][b..pos + 1] == stack[b..pos] + [t];
    }
  }

  lemma PopKeepsFrame(stack: seq<Ty>, pos: nat, marks: seq<Mark>, cur: nat, fs: seq<seq<Ty>>, fs': seq<seq<Ty>>, i: nat)
    requires cur + 1 == |fs| && i <= cur && fs[cur] != [] && 0 < pos
    requires FrameAt(stack, pos, marks, cur, fs, i)
    requires fs' == fs[..cur] + [fs[cur][..|fs[cur]| - 1]] && |Flatten(fs')| == pos - 1
    ensures FrameAt(stack, pos - 1, marks, cur, fs', i)
  {
    if i < cur {
      assert fs'[..i + 1] == fs[..i + 1];
    } else {
      assert fs'[..i + 1] == fs';
    }
  }

  lemma OpenKeepsFrame(stack: seq<Ty>, pos: int, marks: seq<Mark>, cur: int, fs: seq<seq<Ty>>, marks': seq<Mark>,
                      i: nat)
    requires cur + 1 == |fs| < |marks| == |marks'| && i <= cur && FrameAt(stack, pos, marks, cur, fs, i)
    requires marks' == marks[cur := marks[cur].(top := pos)][cur + 1 := marks[cur + 1].(bottom := pos)]
    ensures FrameAt(stack, pos, marks', cur + 1, fs + [[]], i)
  {
    assert (fs + [[]])[..i + 1] == fs[..i + 1];
  }

  lemma OpenKeepsFrames(stack: seq<Ty>, pos: int, marks: seq<Mark>, cur: int, fs: seq<seq<Ty>>, marks': seq<Mark>,
                       next: int, fs': seq<seq<Ty>>)
    requires 0 <= cur && next == cur + 1 == |fs| < |marks| == |marks'| && fs' == fs + [[]]
    requires marks' == marks[cur := marks[cur].(top := pos)][next := marks[next].(bottom := pos)]
    requires forall i | 0 <= i <= cur :: FrameAt(stack, pos, marks, cur, fs, i)
    ensures forall i | 0 <= i <= next :: FrameAt(stack, pos, marks', next, fs', i)
  {
    forall i | 0 <= i <= cur ensures FrameAt(stack, pos, marks', next, fs', i) {
      OpenKeepsFrame(stack, pos, marks, cur, fs, marks', i);
    }
    assert FrameAt(stack, pos, marks, cur, fs, cur) && fs[..next] == fs;
    FlattenLast(fs, []);
    assert fs'[..next + 1] == fs';
  }

  /** What it means to end in one int, or in two. */
  lemma EndsInts(last: seq<Ty>)
    ensures Ends(last, IntTypes(1)) <==> |last| >= 1 && last[|last| - 1] == INT_T
    ensures Ends(last, IntTypes(2)) <==> |last| >= 2 && last[|last| - 1] == INT_T && last[|last| - 2] == INT_T
  {
    assert IntTypes(1) == [INT_T] && IntTypes(2) == [INT_T, INT_T];
    EndsInInts(last);
  }

  /** Two replacements in a row are one. */
  lemma ReplaceTwice(vs: VState, n: nat, vs1: VState, m: nat, ts: seq<Ty>)
    requires vs.frames != [] && n + m <= |Last(vs)| && Replace(vs, n, []) == Some(vs1)
    ensures vs1.frames != [] && Last(vs1) == Last(vs)[..|Last(vs)| - n]
    ensures Replace(vs1, m, ts) == Replace(vs, n + m, ts)
  {
    var k, last := |vs.frames| - 1, Last(vs);
    var last1 := last[..|last| - n];
    assert last1 + [] == last1;
    assert vs1.frames == vs.frames[..k] + [last1] && vs1.frames[..k] == vs.frames[..k];
    FlattenLast(vs.frames[..k], last1);
    assert vs.frames == vs.frames[..k] + [last];
    FlattenLast(vs.frames[..k], last);
    assert last1[..|last1| - m] == last[..|last| - (n + m)];
  }

  function IntTypes(n: nat): seq<Ty> {
    if n == 2 then [INT_T, INT_T] else [INT_T]
  }

  class Verifier {
    var stack: seq<Ty>
    var stkPos: int
    var frames: seq<Mark>
    var curFrame: int
    var curFn: int
    ghost var view: VState

    constructor ()
      ensures Valid() && view == START
    {
      stack := seq(STACK_MAX, _ => INT_T);
      stkPos := -1;
      frames := seq(FRAME_MAX, _ => Mark(0, 0));
      curFrame := -1;
      curFn := -1;
      view := START;
    }

    ghost predicate Valid()
      reads this
    {
      && |stack| == STACK_MAX && |frames| == FRAME_MAX && -1 <= curFrame < FRAME_MAX
      && |view.frames| == curFrame + 1 && view.fn == curFn
      && frames[0].bottom == 0
      && (curFrame == -1 ==> stkPos == -1)
      && forall i | 0 <= i <= curFrame :: FrameAt(stack, stkPos, frames, curFrame, view.frames, i)
    }

    /** push_t */
    method PushT(t: Ty) returns (rc: int)
      requires Valid()
      modifies this`stack, this`stkPos, this`view
      ensures Valid()
      ensures rc == 0 <==> old(view).frames != [] && Replace(old(view), 0, [t]).Some?
      ensures rc == 0 ==> Replace(old(view), 0, [t]) == Some(view)
      ensures rc != 0 ==> rc == -1 && view == old(view)
    {
      ghost var vs, m := view, curFrame;
      if m >= 0 {
        assert FrameAt(stack, stkPos, frames, curFrame, vs.frames, m) && vs.frames[..m + 1] == vs.frames;
        Pushed(vs, t);
      }
      if stkPos == -1 { return -1; }
      if stkPos >= 4096 { return -1; }
      view := Replace(vs, 0, [t]).value;
      stack := stack[stkPos := t];
      stkPos := stkPos + 1;
      forall i | 0 <= i <= curFrame ensures FrameAt(stack, stkPos, frames, curFrame, view.frames, i) {
        PushKeepsFrame(old(stack), old(stkPos), frames, curFrame, vs.frames, t, view.frames, i);
      }
      return 0;
    }

    /** pop_t: the type popped, or -1 */
    method PopT() returns (r: int)
      requires Valid()
      modifies this`stkPos, this`view
      ensures Valid()
      ensures r == -1 <==> old(view).frames == [] || Last(old(view)) == []
      ensures r == -1 ==> view == old(view)
      ensures r != -1 ==> r == Last(old(view))[|Last(old(view))| - 1] && Replace(old(view), 1, []) == Some(view)
    {
      ghost var vs, m := view, curFrame;
      if curFrame == -1 { return -1; }
      assert FrameAt(stack, stkPos, frames, curFrame, vs.frames, m) && vs.frames[..m + 1] == vs.frames;
      if stkPos == frames[curFrame].bottom { return -1; }
      Popped(vs);
      view := Replace(vs, 1, []).value;
      stkPos := stkPos - 1;
      forall i | 0 <= i <= curFrame ensures FrameAt(stack, stkPos, frames, curFrame, view.frames, i) {
        PopKeepsFrame(stack, old(stkPos), frames, curFrame, vs.frames, view.frames, i);
      }
      return stack[stkPos];
    }

    /** push_frame */
    method PushFrame() returns (rc: int)
      requires Valid()
      modifies this`frames, this`curFrame, this`stkPos, this`view
      ensures Valid()
      ensures rc == 0 <==> |old(view).frames| < FRAME_MAX
      ensures rc == 0 ==> view == old(view).(frames := old(view).frames + [[]])
      ensures rc != 0 ==> rc == -1 && view == old(view)
    {
      ghost var vs, m := view, curFrame;
      if curFrame == 63 { return -1; }
      if curFrame >= 0 {
        frames := frames[curFrame := frames[curFrame].(top := stkPos)];
        frames := frames[curFrame + 1 := frames[curFrame + 1].(bottom := stkPos)];
        OpenKeepsFrames(stack, stkPos, old(frames), m, vs.frames, frames, m + 1, vs.frames + [[]]);
      } else {
        // the caller of a function declaration sets the stack position next
        stkPos := 0;
        FlattenLast(vs.frames, []);
        assert (vs.frames + [[]])[..1] == vs.frames + [[]];
      }
      curFrame := curFrame + 1;
      view := vs.(frames := vs.frames + [[]]);
      return 0;
    }

    /** pop_frame */
    method PopFrame() returns (rc: int)
      requires Valid()
      modifies this`curFrame, this`stkPos, this`view
      ensures Valid()
      ensures rc == 0 <==> old(view).frames != []
      ensures rc == 0 ==> view == old(view).(frames := old(view).frames[..|old(view).frames| - 1])
      ensures rc != 0 ==> rc == -1 && view == old(view)
    {
      ghost var vs, m := view, curFrame;
      if curFrame == -1 { return -1; }
      assert m > 0 ==> FrameAt(stack, stkPos, frames, curFrame, vs.frames, m - 1);
      curFrame := curFrame - 1;
      if curFrame != -1 {
        stkPos := frames[curFrame].top;
      } else {
        stkPos := -1;
      }
      view := vs.(frames := vs.frames[..m]);
      forall i | 0 <= i <= curFrame ensures FrameAt(stack, stkPos, frames, curFrame, view.frames, i) {
        assert FrameAt(old(stack), old(stkPos), old(frames), m, vs.frames, i);
        assert view.frames[..i + 1] == vs.frames[..i + 1];
      }
      return 0;
    }

    /** pop_t() != INT_T, n times over */
    method PopInts(n: nat) returns (ok: bool)
      requires Valid() && view.frames != [] && 1 <= n <= 2
      modifies this`stkPos, this`view
      ensures Valid()
      ensures ok <==> Ends(Last(old(view)), IntTypes(n))
      ensures ok ==> Replace(old(view), n, []) == Some(view)
    {
      ghost var vs := view;
      EndsInts(Last(view));
      var r := PopT();
      if r != INT_T {
        return false;
      }
      if n == 1 {
        return true;
      }
      ghost var v1 := view;
      ReplaceTwice(vs, 1, v1, 0, []);
      r := PopT();
      if r != INT_T {
        return false;
      }
      ReplaceTwice(vs, 1, v1, 1, []);
      return true;
    }

    /** The tokens that take and leave operands: pop n ints, push an int unless it is a store. */
    method Operands(op: byte, ghost code: seq<Instr>, ghost fns: seq<Fn>, ghost k: nat, ghost rf: int)
      returns (ok: bool)
      requires Valid() && view.frames != []
      requires IsUnary(op) || op == I_EQZ || IsBinary(op) || IsCompare(op) || IsLoad(op) || op == I_MEMSZ || IsStore(op)
      modifies this`stack, this`stkPos, this`view
      ensures Valid()
      ensures ok <==> VPlain(code, fns, old(view), k, op, rf).Some?
      ensures ok ==> VPlain(code, fns, old(view), k, op, rf) == Some(view)
    {
      if op == I_MEMSZ {
        var rc := PushT(INT_T);
        return rc == 0;
      }
      if IsStore(op) {
        ok := StoreOperands();
        return;
      }
      ok := IntOperands(if IsBinary(op) || IsCompare(op) then 2 else 1);
    }

    /** Pop n ints and push one. */
    method IntOperands(n: nat) returns (ok: bool)
      requires Valid() && view.frames != [] && 1 <= n <= 2
      modifies this`stack, this`stkPos, this`view
      ensures Valid()
      ensures ok <==> Ends(Last(old(view)), IntTypes(n)) && Replace(old(view), n, [INT_T]).Some?
      ensures ok ==> Replace(old(view), n, [INT_T]) == Some(view)
    {
      ghost var vs := view;
      ok := PopInts(n);
      if !ok { return; }
      ghost var v1 := view;
      ReplaceTwice(vs, n, v1, 0, [INT_T]);
      var rc := PushT(INT_T);
      return rc == 0;
    }

    /** A store pops a value of any type, then an int. */
    method StoreOperands() returns (ok: bool)
      requires Valid() && view.frames != []
      modifies this`stkPos, this`view
      ensures Valid()
      ensures ok <==> |Last(old(view))| >= 2 && Last(old(view))[|Last(old(view))| - 2] == INT_T
      ensures ok ==> Replace(old(view), 2, []) == Some(view)
    {
      ghost var vs := view;
      var r := PopT();
      if r < 0 { return false; }
      ghost var v1 := view;
      ReplaceTwice(vs, 1, v1, 0, []);
      r := PopT();
      if r != INT_T { return false; }
      ReplaceTwice(vs, 1, v1, 1, []);
      return true;
    }

    /** A bare token inside a function; nextEnd says whether `end` follows. */
    method PlainToken(op: byte, nextEnd: bool, fns: seq<Fn>, rf: int, ghost code: seq<Instr>, ghost k: nat)
      returns (ok: bool)
      requires Valid() && view.frames != [] && nextEnd == NextIsEnd(code, k)
      modifies this
      ensures Valid()
      ensures ok <==> VPlain(code, fns, old(view), k, op, rf).Some?
      ensures ok ==> VPlain(code, fns, old(view), k, op, rf) == Some(view)
    {
      if IsUnary(op) || op == I_EQZ || IsBinary(op) || IsCompare(op) || IsLoad(op) || op == I_MEMSZ || IsStore(op) {
        ok := Operands(op, code, fns, k, rf);
      } else if op == TRAP {
        ok := nextEnd;
      } else if op == BLOCK || op == LOOP {
        var rc := PushFrame();
        ok := rc == 0;
      } else if op == RET {
        if !nextEnd || !(0 <= rf < |fns|) { return false; }
        if fns[rf].rt {
          assert seq(1, _ => INT_T) == [INT_T];
          ok := PopInts(1);
        } else {
          ReplaceNothing(view);
          ok := true;
        }
      } else if op == END {
        var rc := PopFrame();
        ok := rc == 0;
      } else {
        ok := false;
      }
    }

    /** call's loop over the parameters, last first. */
    method PopParams(ps: seq<Ty>) returns (ok: bool)
      requires Valid() && view.frames != []
      modifies this`stkPos, this`view
      ensures Valid()
      ensures ok <==> Ends(Last(old(view)), ps)
      ensures ok ==> Replace(old(view), |ps|, []) == Some(view)
    {
      ghost var vs, last := view, Last(view);
      ReplaceNothing(view);
      var i := |ps|;
      while i > 0
        invariant 0 <= i <= |ps| && Valid() && view.frames != [] && Ends(last, ps[i..])
        invariant Replace(vs, |ps| - i, []) == Some(view)
        decreases i
      {
        ghost var v1 := view;
        ReplaceTwice(vs, |ps| - i, v1, 0, []);
        EndsNext(last, ps, i);
        var r := PopT();
        if r != ps[i - 1] { return false; }
        ReplaceTwice(vs, |ps| - i, v1, 1, []);
        i := i - 1;
      }
      assert ps[0..] == ps;
      return true;
    }

    /** call: pop the parameters and push the result. */
    method CallToken(g: Fn) returns (ok: bool)
      requires Valid() && view.frames != []
      modifies this`stack, this`stkPos, this`view
      ensures Valid()
      ensures ok <==> Ends(Last(old(view)), g.params) && Replace(old(view), |g.params|, RetTypes(g)).Some?
      ensures ok ==> Replace(old(view), |g.params|, RetTypes(g)) == Some(view)
    {
      ghost var vs := view;
      ok := PopParams(g.params);
      if ok && g.rt {
        ReplaceTwice(vs, |g.params|, view, 0, [INT_T]);
        var rc := PushT(INT_T);
        ok := rc == 0;
      }
    }

    /** A token with an immediate inside a function. */
    method ImmToken(op: byte, v: word, nextEnd: bool, fns: seq<Fn>, ghost code: seq<Instr>, ghost k: nat)
      returns (ok: bool)
      requires Valid() && view.frames != [] && nextEnd == NextIsEnd(code, k)
      modifies this
      ensures Valid()
      ensures ok <==> VImm(code, fns, old(view), k, op, v).Some?
      ensures ok ==> VImm(code, fns, old(view), k, op, v) == Some(view)
    {
      if op == I_CONST {
        var rc := PushT(INT_T);
        ok := rc == 0;
      } else if op == GET_L {
        if !(0 <= curFn < |fns|) { return false; }
        var t := LocalTy(fns[curFn], v);
        if t.None? { return false; }
        var rc := PushT(t.value);
        ok := rc == 0;
      } else if op == SET_L {
        if !(0 <= curFn < |fns|) { return false; }
        var t := LocalTy(fns[curFn], v);
        var r := PopT();
        ok := r >= 0 && t.Some? && t.value == r;
      } else if op == BR {
        ok := v < curFrame && nextEnd;
      } else if op == BR_IF {
        if v >= curFrame { return false; }
        assert seq(1, _ => INT_T) == [INT_T];
        ok := PopInts(1);
      } else if op == CALL {
        if v >= |fns| { return false; }
        ok := CallToken(fns[v]);
      } else {
        ok := false;
      }
    }

    /** One turn of verify's loop. */
    method Token(i: Instr, nextEnd: bool, fns: seq<Fn>, rf: int, ghost code: seq<Instr>, ghost k: nat)
      returns (ok: bool)
      requires Valid() && k < |code| && code[k] == i && nextEnd == NextIsEnd(code, k)
      modifies this
      ensures Valid()
      ensures ok <==> VStep(code, fns, old(view), k, rf).Some?
      ensures ok ==> VStep(code, fns, old(view), k, rf) == Some(view)
    {
      if i.Decl? {
        if curFrame >= 0 { return false; }
        var rc := PushFrame();
        curFn := curFn + 1;
        assert view.frames == [[]];
        view := view.(fn := curFn);
        ok := rc == 0;
      } else if curFrame < 0 {
        ok := false;
      } else if i.Plain? {
        ok := PlainToken(i.op, nextEnd, fns, rf, code, k);
      } else {
        ok := ImmToken(i.op, i.v, nextEnd, fns, code, k);
      }
    }
  }

  /** A list that ends in ps[i..] ends in ps[i - 1..] when the type before is ps[i - 1], else not in ps. */
  lemma EndsNext(last: seq<Ty>, ps: seq<Ty>, i: nat)
    requires 0 < i <= |ps| && Ends(last, ps[i..])
    ensures var n := |ps| - i;
            && (n < |last| && last[|last| - n - 1] == ps[i - 1] ==> Ends(last, ps[i - 1..]))
            && (n == |last| || last[|last| - n - 1] != ps[i - 1] ==> !Ends(last, ps))
  {
    var n := |ps| - i;
    assert |last| >= |ps| ==> last[|last| - |ps|..][i - 1] == last[|last| - n - 1];
    if n < |last| && last[|last| - n - 1] == ps[i - 1] {
      assert last[|last| - n - 1..] == [ps[i - 1]] + last[|last| - n..];
      assert ps[i - 1..] == [ps[i - 1]] + ps[i..];
    }
  }

  // ---------- the loops over the program's bytes ----------

  /** `done` has been decoded and decoding goes on at `place`. */
  ghost predicate Decoded(prog: seq<byte>, place: nat, done: seq<Instr>) {
    && place <= |prog|
    && Scan(prog, 0) == if Scan(prog, place).None? then None else Some(done + Scan(prog, place).value)
  }

  lemma DecodeNext(prog: seq<byte>, place: nat, done: seq<Instr>)
    requires Decoded(prog, place, done) && place < |prog|
    ensures var f := Fetch(prog, place);
            if f.None? then Scan(prog, 0).None? else Decoded(prog, f.value.1, done + [f.value.0])
    ensures var f := Fetch(prog, place);
            f.Some? && Scan(prog, 0).Some? ==> done + [f.value.0] <= Scan(prog, 0).value
  {
    var f := Fetch(prog, place);
    if f.Some? {
      ScanCons(prog, place, f.value.0, f.value.1);
      var rest := Scan(prog, f.value.1);
      if rest.Some? { ShiftHead(done, f.value.0, rest.value); }
    }
  }

  lemma DecodeEnd(prog: seq<byte>, done: seq<Instr>)
    requires Decoded(prog, |prog|, done)
    ensures Scan(prog, 0) == Some(done)
  {
    assert done + [] == done;
  }

  lemma {:induction false} FnsAgree(a: seq<Instr>, b: seq<Instr>, k: nat)
    requires k <= |a| && a <= b
    ensures FnsUpto(a, k) == FnsUpto(b, k)
  {
    if k > 0 {
      FnsAgree(a, b, k - 1);
      assert a[k - 1] == b[k - 1];
    }
  }

  lemma DecodeStart(prog: seq<byte>)
    ensures Decoded(prog, 0, [])
  {
    if Scan(prog, 0).Some? { assert [] + Scan(prog, 0).value == Scan(prog, 0).value; }
  }

  /** The table after one more token. */
  lemma FnsNext(done: seq<Instr>, i: Instr)
    ensures Fns(done + [i])
         == if i.Decl? then Fns(done) + [Fn(i.rt, i.params, i.locals, |done|)] else Fns(done)
  {
    FnsAgree(done, done + [i], |done|);
  }

  /** populate_fns */
  method PopulateFns(prog: seq<byte>) returns (ok: bool, fns: seq<Fn>)
    ensures ok <==> Scan(prog, 0).Some?
    ensures ok ==> fns == Fns(Scan(prog, 0).value)
  {
    var place, k := 0, 0;
    fns := [];
    ghost var done: seq<Instr> := [];
    DecodeStart(prog);
    while place < |prog|
      invariant Decoded(prog, place, done) && |done| == k && fns == Fns(done)
      decreases |prog| - place
    {
      DecodeNext(prog, place, done);
      var f := Fetch(prog, place);
      if f.None? { return false, fns; }
      var (i, next) := f.value;
      FnsNext(done, i);
      if i.Decl? { fns := fns + [Fn(i.rt, i.params, i.locals, k)]; }
      done := done + [i];
      place, k := next, k + 1;
    }
    DecodeEnd(prog, done);
    return true, fns;
  }

  /** What `ret` looks at, by token. */
  ghost function Reads(readFn: nat -> int, n: nat): seq<int> {
    seq(n, k requires 0 <= k < n => readFn(k))
  }

  /** The verifier's states over the first |vss| - 1 tokens. */
  ghost predicate Accepting(code: seq<Instr>, fns: seq<Fn>, rfs: seq<int>, vss: seq<VState>) {
    && 0 < |vss| <= |code| + 1 && |rfs| == |code| && vss[0] == START
    && forall k | 0 <= k < |vss| - 1 :: VStepsAt(code, fns, rfs, vss, k)
  }

  lemma {:induction false} AcceptingIsUnique(code: seq<Instr>, fns: seq<Fn>, rfs: seq<int>, vss: seq<VState>,
                      vss': seq<VState>, k: nat)
    requires Accepting(code, fns, rfs, vss) && Accepting(code, fns, rfs, vss') && k < |vss| && k < |vss'|
    ensures vss[k] == vss'[k]
  {
    if k > 0 {
      AcceptingIsUnique(code, fns, rfs, vss, vss', k - 1);
      assert VStepsAt(code, fns, rfs, vss, k - 1);
      assert VStepsAt(code, fns, rfs, vss', k - 1);
    }
  }

  lemma NeverAccepts(code: seq<Instr>, fns: seq<Fn>, rfs: seq<int>, vss: seq<VState>, vss': seq<VState>)
    requires Accepting(code, fns, rfs, vss) && |vss| <= |code|
    requires var k := |vss| - 1; VStep(code, fns, vss[k], k, rfs[k]).None?
    ensures !Accepts(code, fns, rfs, vss')
  {
    var k := |vss| - 1;
    assert Accepts(code, fns, rfs, vss') ==> VStepsAt(code, fns, rfs, vss', k);
    if Accepts(code, fns, rfs, vss') { AcceptingIsUnique(code, fns, rfs, vss, vss', k); }
  }

  lemma AcceptingNext(code: seq<Instr>, fns: seq<Fn>, rfs: seq<int>, vss: seq<VState>, vs: VState)
    requires Accepting(code, fns, rfs, vss) && |vss| <= |code|
    requires var k := |vss| - 1; VStep(code, fns, vss[k], k, rfs[k]) == Some(vs)
    ensures Accepting(code, fns, rfs, vss + [vs])
  {
    var vss', n := vss + [vs], |vss| - 1;
    forall k | 0 <= k < |vss'| - 1 ensures VStepsAt(code, fns, rfs, vss', k) {
      if k < n { assert VStepsAt(code, fns, rfs, vss, k); }
    }
  }

  /** Decode the token at `place` of a program that decodes to `code`, and look whether `end` follows it. */
  method NextToken(prog: seq<byte>, place: nat, ghost code: seq<Instr>, ghost k: nat) returns (i: Instr, next: nat,
                   nextEnd: bool)
    requires Scan(prog, 0) == Some(code) && k <= |code| && Decoded(prog, place, code[..k]) && place < |prog|
    ensures k < |code| && i == code[k] && place < next && Decoded(prog, next, code[..k + 1])
    ensures nextEnd == NextIsEnd(code, k)
  {
    DecodeNext(prog, place, code[..k]);
    var f := Fetch(prog, place);
    i, next := f.value.0, f.value.1;
    assert code[..k] + [i] == code[..k + 1];
    nextEnd := next < |prog| && prog[next] == END;
    LooksAhead(prog, next, code, code[..k + 1]);
  }

  /** The first k tokens are decoded and have passed; vs is the verifier's state behind them. */
  ghost predicate Passed(prog: seq<byte>, place: nat, fns: seq<Fn>, code: seq<Instr>, rfs: seq<int>, k: nat,
                      vss: seq<VState>, vs: VState) {
    k <= |code| && Decoded(prog, place, code[..k]) && |vss| == k + 1 && Accepting(code, fns, rfs, vss) && vss[k] == vs
  }

  /** One turn of verify's loop. */
  method CheckToken(v: Verifier, prog: seq<byte>, place: nat, fns: seq<Fn>, rf: int, k: nat, ghost code: seq<Instr>,
                    ghost rfs: seq<int>, ghost vss: seq<VState>)
    returns (ok: bool, next: nat, ghost vss': seq<VState>)
    requires v.Valid() && Scan(prog, 0) == Some(code) && Passed(prog, place, fns, code, rfs, k, vss, v.view)
          && place < |prog|
    requires k < |rfs| ==> rf == rfs[k]
    modifies v
    ensures v.Valid() && (ok ==> place < next && Passed(prog, next, fns, code, rfs, k + 1, vss', v.view))
    ensures !ok ==> vss' == vss && k < |code| && VStep(code, fns, vss[k], k, rf).None?
  {
    vss' := vss;
    var i, nextEnd;
    i, next, nextEnd := NextToken(prog, place, code, k);
    ok := v.Token(i, nextEnd, fns, rf, code, k);
    if ok {
      AcceptingNext(code, fns, rfs, vss, v.view);
      vss' := vss + [v.view];
    }
  }

  lemma AllPassed(prog: seq<byte>, fns: seq<Fn>, code: seq<Instr>, rfs: seq<int>, k: nat, vss: seq<VState>, vs: VState)
    requires Scan(prog, 0) == Some(code) && Passed(prog, |prog|, fns, code, rfs, k, vss, vs)
    ensures Accepting(code, fns, rfs, vss) && |vss| == |code| + 1
  {
    DecodeEnd(prog, code[..k]);
  }

  lemma NonePassed(prog: seq<byte>, fns: seq<Fn>, code: seq<Instr>, rfs: seq<int>)
    requires Scan(prog, 0) == Some(code) && |rfs| == |code|
    ensures Passed(prog, 0, fns, code, rfs, 0, [START], START)
  {
    assert code[..0] + code == code;
  }

  /** The tokens vss covers pass, the next one does not. */
  ghost predicate Stops(code: seq<Instr>, fns: seq<Fn>, rfs: seq<int>, vss: seq<VState>) {
    Accepting(code, fns, rfs, vss) && |vss| <= |code|
      && VStep(code, fns, vss[|vss| - 1], |vss| - 1, rfs[|vss| - 1]).None?
  }

  /** verify's loop: on return all tokens have passed, or vss covers those that have and the next one does not. */
  method CheckTokens(prog: seq<byte>, fns: seq<Fn>, readFn: nat -> int, ghost code: seq<Instr>, ghost rfs: seq<int>)
    returns (ok: bool, ghost vss: seq<VState>)
    requires Scan(prog, 0) == Some(code) && |rfs| == |code| && forall k | 0 <= k < |rfs| :: rfs[k] == readFn(k)
    ensures ok ==> Accepting(code, fns, rfs, vss) && |vss| == |code| + 1
    ensures !ok ==> Stops(code, fns, rfs, vss)
  {
    vss := [START];
    var v := new Verifier();
    var place, k := 0, 0;
    NonePassed(prog, fns, code, rfs);
    while place < |prog|
      invariant fresh(v) && v.Valid() && place <= |prog| && Passed(prog, place, fns, code, rfs, k, vss, v.view)
      decreases |prog| - place
    {
      var next;
      ok, next, vss := CheckToken(v, prog, place, fns, readFn(k), k, code, rfs, vss);
      if !ok { return; }
      place, k := next, k + 1;
    }
    AllPassed(prog, fns, code, rfs, k, vss, v.view);
    return true, vss;
  }

  /** verify. readFn(k) is what the variable read by `ret` holds when token k is checked. The program is
      accepted exactly when it decodes and every token passes. */
  method Verify(prog: seq<byte>, readFn: nat -> int) returns (ok: bool, ghost vss: seq<VState>)
    ensures ok ==>
          Scan(prog, 0).Some? && var code := Scan(prog, 0).value; Accepts(code, Fns(code), Reads(readFn, |code|), vss)
    ensures !ok ==>
          Scan(prog, 0).None? || var code := Scan(prog, 0).value; forall w ::
            !Accepts(code, Fns(code), Reads(readFn, |code|), w)
    ensures Scan(prog, 0).Some? ==>
          var code := Scan(prog, 0).value; Typability.Typable(code, Fns(code), Reads(readFn, |code|)) ==> ok
  {
    vss := [START];
    var fns;
    ok, fns := PopulateFns(prog);
    if !ok { return; }
    ghost var code := Scan(prog, 0).value;
    ghost var rfs := Reads(readFn, |code|);
    Typability.AcceptedIffTyped(code, fns, rfs);
    if |fns| > 0 && fns[0].params != [] { return false, vss; }
    ok, vss := CheckTokens(prog, fns, readFn, code, rfs);
    if !ok {
      forall w ensures !Accepts(code, fns, rfs, w) {
        NeverAccepts(code, fns, rfs, vss, w);
      }
    }
  }

  /** The byte at the next place says whether the next token is `end`. */
  lemma LooksAhead(prog: seq<byte>, place: nat, code: seq<Instr>, done: seq<Instr>)
    requires Decoded(prog, place, done) && Scan(prog, 0) == Some(code) && done <= code && done != []
    ensures (place < |prog| && prog[place] == END) <==> NextIsEnd(code, |done| - 1)
  {
    var rest := Scan(prog, place).value;
    assert code == done + rest;
    if place < |prog| {
      assert code[|done|] == rest[0] == Fetch(prog, place).value.0;
    }
  }
}
