/**
 The stack machine that reads a canonical stream back, and the theorems it gives about the
 encoder: it inverts serialization, so a stream determines its expression up to names.
 */
module StreamDecoder {
  import opened Words
  import opened CanonicalTree

  /** One record read off the front of a stream; `Malformed` is where the script raises IndexError. */
  datatype Step = Malformed | Next(used: nat, stack: seq<Tree>)

  function Words32(data: seq<u8>, o: nat, n: nat): (args: seq<u32>)
    requires o + 4 * n <= |data|
    ensures |args| == n
    decreases n
  {
    if n == 0 then [] else [U32At(data, o)] + Words32(data, o + 4, n - 1)
  }

  function ReadRecord(data: seq<u8>, i: nat, st: seq<Tree>): (r: Step)
    requires i < |data|
    ensures r.Next? ==> r.used >= 5
  {
    if i + 5 > |data| then Malformed
    else
      var tag, code, vlen: nat, w := data[i], data[i + 1], data[i + 2], U16At(data, i + 3);
      var j := i + 5;
      if tag == TAG_VAR then
        if j + 4 > |data| then Malformed
        else Next(9 + 4 * vlen, st + [Var(code, w, U32At(data, j))])
      else if tag == TAG_LEAF_CONST then
        if j + 4 * vlen > |data| then Malformed
        else Next(5 + 4 * vlen, st + [Const(code, w, Words32(data, j, vlen))])
      else if vlen == 0 || |st| < vlen then Malformed
      else Next(5, st[..|st| - vlen] + [Node(code, w, st[|st| - vlen..])])
  }

  /** The stack after reading `data` from `i` on. */
  function Machine(data: seq<u8>, i: nat, st: seq<Tree>): (r: Option<seq<Tree>>)
    decreases |data| - i
  {
    if i >= |data| then Some(st)
    else
      var s := ReadRecord(data, i, st);
      if s.Malformed? then None else Machine(data, i + s.used, s.stack)
  }

  /** The script's loop: an index and a stack, both updated record by record. */
  method Parse(data: seq<u8>) returns (r: Option<Tree>)
    ensures r == match Machine(data, 0, [])
                 case None => None
                 case Some(st) => if st == [] then None else Some(st[|st| - 1])
  {
    hide ReadRecord, Machine;
    var i: nat, st: seq<Tree> := 0, [];
    while i < |data|
      invariant Machine(data, i, st) == Machine(data, 0, [])
      decreases |data| - i
    {
      MachineStep(data, i, st);
      var ok;
      ok, i, st := ParseRecord(data, i, st);
      if !ok { return None; }
    }
    MachineEnd(data, i, st);
    if st == [] { return None; }
    return Some(st[|st| - 1]);
  }

  method ParseRecord(data: seq<u8>, at: nat, stack: seq<Tree>) returns (ok: bool, i: nat, st: seq<Tree>)
    requires at < |data|
    ensures ok ==> at < i
    ensures ReadRecord(data, at, stack) == if ok then Next(i - at, st) else Malformed
  {
    hide U16At, U32At, Words32;
    i, st := at, stack;
    if i + 5 > |data| { return false, i, st; }
    var tag, code, vlen: nat, w := data[i], data[i + 1], data[i + 2], U16At(data, i + 3);
    i := i + 5;
    if tag == TAG_VAR {
      if i + 4 > |data| { return false, i, st; }
      st := st + [Var(code, w, U32At(data, i))];
      i := i + 4 + 4 * vlen;
    } else if tag == TAG_LEAF_CONST {
      if i + 4 * vlen > |data| { return false, i, st; }
      st := st + [Const(code, w, Words32(data, i, vlen))];
      i := i + 4 * vlen;
    } else {
      if vlen == 0 || |st| < vlen { return false, i, st; }
      var kids := st[|st| - vlen..];
      st := st[..|st| - vlen] + [Node(code, w, kids)];
    }
    ok := true;
  }

  lemma MachineEnd(data: seq<u8>, i: nat, st: seq<Tree>)
    requires |data| <= i
    ensures Machine(data, i, st) == Some(st)
  {
  }

  lemma MachineStep(data: seq<u8>, i: nat, st: seq<Tree>)
    requires i < |data|
    ensures var s := ReadRecord(data, i, st);
            Machine(data, i, st) == if s.Malformed? then None else Machine(data, i + s.used, s.stack)
  {
    hide ReadRecord;
  }

  // ---------------------------------------------------------------- inverting serialization

  lemma {:induction false} ReadArgs(data: seq<u8>, o: nat, args: seq<u32>)
    requires Holds(data, o, ConstArgs(args))
    ensures o + 4 * |args| <= |data| && Words32(data, o, |args|) == args
    decreases args
  {
    hide LE32, U32At;
    if args != [] {
      HoldsSplit(data, o, LE32(args[0]), ConstArgs(args[1..]));
      ReadBack32(data, o, args[0]);
      ReadArgs(data, o + 4, args[1..]);
    }
  }

  lemma HeaderReadsBack(data: seq<u8>, i: nat, tag: u8, code: u8, vlen: u8, p: u16)
    requires Holds(data, i, Record(tag, code, vlen, p))
    ensures i + 5 <= |data|
    ensures data[i] == tag && data[i + 1] == code && data[i + 2] == vlen && U16At(data, i + 3) == p
  {
    hide LE16, U16At;
    var h := data[i..i + 5];
    assert h[0] == data[i] && h[1] == data[i + 1] && h[2] == data[i + 2];
    assert data[i + 3..i + 5] == h[3..];
    ReadBack16(data, i + 3, p);
  }

  lemma VarRecord(data: seq<u8>, i: nat, st: seq<Tree>, c: u8, p: u16, n: u32)
    requires Holds(data, i, Record(TAG_VAR, c, 0, p)) && Holds(data, i + 5, LE32(n))
    ensures i < |data| && ReadRecord(data, i, st) == Next(9, st + [Var(c, p, n)])
  {
    hide LE32, U16At, U32At, Record;
    HeaderReadsBack(data, i, TAG_VAR, c, 0, p);
    ReadBack32(data, i + 5, n);
  }

  lemma ConstRecord(data: seq<u8>, i: nat, st: seq<Tree>, c: u8, p: u16, args: seq<u32>)
    requires |args| <= 255
    requires Holds(data, i, Record(TAG_LEAF_CONST, c, |args|, p)) && Holds(data, i + 5, ConstArgs(args))
    ensures i < |data| && ReadRecord(data, i, st) == Next(5 + 4 * |args|, st + [Const(c, p, args)])
  {
    hide Holds, U16At, Words32, Record, ConstArgs;
    HeaderReadsBack(data, i, TAG_LEAF_CONST, c, |args|, p);
    ReadArgs(data, i + 5, args);
  }

  lemma NodeRecord(data: seq<u8>, i: nat, st: seq<Tree>, c: u8, p: u16, kids: seq<Tree>)
    requires 1 <= |kids| <= 255 && Holds(data, i, Record(TAG_INTERNAL, c, |kids|, p))
    ensures i < |data| && ReadRecord(data, i, st + kids) == Next(5, st + [Node(c, p, kids)])
  {
    hide Holds, U16At, Record;
    HeaderReadsBack(data, i, TAG_INTERNAL, c, |kids|, p);
    assert (st + kids)[..|st|] == st && (st + kids)[|st|..] == kids;
  }

  /** From the start of the records of `ts`, the machine pushes exactly `ts` and stands behind them. */
  lemma {:induction false} MachineInverts(data: seq<u8>, i: nat, ts: seq<Tree>, st: seq<Tree>)
    requires WellFormed(ts) && Holds(data, i, Serialize(ts))
    ensures Machine(data, i, st) == Machine(data, i + |Serialize(ts)|, st + ts)
    decreases ts
  {
    hide Machine, Bytes, Holds;
    if ts == [] {
      assert st + ts == st;
    } else {
      var b, rest := Bytes(ts[0]), Serialize(ts[1..]);
      assert Serialize(ts) == b + rest;
      HoldsSplit(data, i, b, rest);
      MachineInvertsTree(data, i, ts[0], st);
      MachineInverts(data, i + |b|, ts[1..], st + [ts[0]]);
      assert st + [ts[0]] + ts[1..] == st + ts;
      assert i + |b| + |rest| == i + |Serialize(ts)|;
    }
  }

  lemma {:induction false} MachineInvertsTree(data: seq<u8>, i: nat, t: Tree, st: seq<Tree>)
    requires WellFormed([t]) && Holds(data, i, Bytes(t))
    ensures Machine(data, i, st) == Machine(data, i + |Bytes(t)|, st + [t])
    decreases t
  {
    hide Machine, ReadRecord, Holds, Record, Serialize, ConstArgs, LE32;
    match t {
      case Var(c, p, n) =>
        HoldsSplit(data, i, Record(TAG_VAR, c, 0, p), LE32(n));
        VarRecord(data, i, st, c, p, n);
        MachineStep(data, i, st);
      case Const(c, p, args) =>
        HoldsSplit(data, i, Record(TAG_LEAF_CONST, c, |args|, p), ConstArgs(args));
        ConstRecord(data, i, st, c, p, args);
        MachineStep(data, i, st);
      case Node(c, p, kids) =>
        var j := i + |Serialize(kids)|;
        HoldsSplit(data, i, Serialize(kids), Record(TAG_INTERNAL, c, |kids|, p));
        MachineInverts(data, i, kids, st);
        NodeRecord(data, j, st, c, p, kids);
        MachineStep(data, j, st + kids);
    }
  }

  lemma MachineInvertsAll(ts: seq<Tree>)
    requires WellFormed(ts)
    ensures Machine(Serialize(ts), 0, []) == Some(ts)
  {
    hide WellFormed, Serialize;
    var bs := Serialize(ts);
    assert bs[0..|bs|] == bs && [] + ts == ts;
    MachineInverts(bs, 0, ts, []);
  }

  /**
   Run on any canonical stream, the decoder consumes every byte without underflow and ends
   with exactly one tree: the encoded one with variables replaced by first-occurrence numbers.
   */
  lemma DecoderInvertsStream(t: Tree)
    requires WellFormed([t])
    ensures Machine(Stream(t), 0, []) == Some(Canon([t], []).trees)
    ensures |Canon([t], []).trees| == 1
  {
    hide Machine, WellFormed, Serialize, Canon;
    CanonIsWellFormed([t], []);
    MachineInvertsAll(Canon([t], []).trees);
  }

  /** Two expressions share a canonical stream exactly when they differ only in variable names. */
  lemma SameStreamIffAlphaEquivalent(t: Tree, u: Tree)
    requires WellFormed([t]) && WellFormed([u])
    ensures Stream(t) == Stream(u) <==> AlphaEquivalent(t, u)
  {
    hide Machine, WellFormed, Serialize, Canon, AlphaEquivalent;
    AlphaEquivalentIffSameCanon(t, u);
    DecoderInvertsStream(t);
    DecoderInvertsStream(u);
  }

  // ---------------------------------------------------------------- streams that are accepted

  /** From `i` on the records have known tags and variables carry no arguments: what the encoder writes. */
  predicate Strict(data: seq<u8>, i: nat)
    decreases |data| - i
  {
    i >= |data| ||
    (&& i + 5 <= |data|
     && match data[i]
        case 0x01 => data[i + 2] == 0 && Strict(data, i + 9)
        case 0x02 => (var vlen: nat := data[i + 2]; Strict(data, i + 5 + 4 * vlen))
        case 0x03 => Strict(data, i + 5)
        case _ => false)
  }

  lemma HeaderWrites(data: seq<u8>, i: nat)
    requires i + 5 <= |data|
    ensures data[i..i + 5] == Record(data[i], data[i + 1], data[i + 2], U16At(data, i + 3))
  {
    assert LE16(U16At(data, i + 3)) == [data[i + 3], data[i + 4]];
    hide LE16, U16At;
  }

  lemma WordWrites(data: seq<u8>, o: nat)
    requires o + 4 <= |data|
    ensures data[o..o + 4] == LE32(U32At(data, o))
  {
    var b0: int, b1: int, b2: int, b3: int := data[o], data[o + 1], data[o + 2], data[o + 3];
    var v := b0 + 0x100 * (b1 + 0x100 * (b2 + 0x100 * b3));
    assert v / 0x100 == b1 + 0x100 * (b2 + 0x100 * b3);
    assert v / 0x100 / 0x100 == b2 + 0x100 * b3;
    assert v / 0x100 / 0x100 / 0x100 == b3;
  }

  lemma {:induction false} WordsWrite(data: seq<u8>, o: nat, n: nat)
    requires o + 4 * n <= |data|
    ensures data[o..o + 4 * n] == ConstArgs(Words32(data, o, n))
    decreases n
  {
    hide LE32, U32At;
    if n > 0 {
      WordWrites(data, o);
      WordsWrite(data, o + 4, n - 1);
      assert Words32(data, o, n)[1..] == Words32(data, o + 4, n - 1);
      assert data[o..o + 4 * n] == data[o..o + 4] + data[o + 4..o + 4 + 4 * (n - 1)];
    }
  }

  lemma {:induction false} WellFormedAppend(a: seq<Tree>, b: seq<Tree>)
    requires WellFormed(a) && WellFormed(b)
    ensures WellFormed(a + b)
    decreases |a|
  {
    if a == [] {
      assert a + b == b;
    } else {
      WellFormedAppend(a[1..], b);
      assert (a + b)[1..] == a[1..] + b && (a + b)[0] == a[0];
    }
  }

  lemma WellFormedFirst(a: seq<Tree>)
    requires WellFormed(a) && a != []
    ensures WellFormed([a[0]]) && WellFormed(a[1..]) && Serialize(a) == Bytes(a[0]) + Serialize(a[1..])
  {
    assert [a[0]][1..] == [];
  }

  lemma {:induction false} SerializeAppend(a: seq<Tree>, b: seq<Tree>)
    requires WellFormed(a) && WellFormed(b)
    ensures WellFormed(a + b) && Serialize(a + b) == Serialize(a) + Serialize(b)
    decreases |a|
  {
    WellFormedAppend(a, b);
    if a == [] {
      assert a + b == b && Serialize(a) == [];
    } else {
      var ab := a + b;
      assert ab[1..] == a[1..] + b && ab[0] == a[0];
      WellFormedFirst(a);
      WellFormedFirst(ab);
      hide Bytes, Serialize, WellFormed;
      SerializeAppend(a[1..], b);
      Assoc(Bytes(a[0]), Serialize(a[1..]), Serialize(b));
    }
  }

  lemma Assoc(a: seq<u8>, b: seq<u8>, c: seq<u8>)
    ensures a + (b + c) == a + b + c
  {
  }

  lemma {:induction false} WellFormedParts(ts: seq<Tree>, n: nat)
    requires WellFormed(ts) && n <= |ts|
    ensures WellFormed(ts[..n]) && WellFormed(ts[n..])
    decreases n
  {
    if n > 0 {
      WellFormedParts(ts[1..], n - 1);
      assert ts[..n][1..] == ts[1..][..n - 1] && ts[n..] == ts[1..][n - 1..];
    } else {
      assert ts[0..] == ts;
    }
  }

  lemma One(t: Tree)
    requires match t case Var(_, _, _) => true case Const(_, _, args) => |args| <= 255
                     case Node(_, _, kids) => 1 <= |kids| <= 255 && WellFormed(kids)
    ensures WellFormed([t]) && Serialize([t]) == Bytes(t)
  {
    var one, none: seq<Tree> := [t], [];
    assert one[1..] == none;
    assert WellFormed(none) && Serialize(none) == [];
  }

  /** One accepted record adds its own bytes to what the stack stands for. */
  lemma RecordWrites(data: seq<u8>, i: nat, st: seq<Tree>)
    requires i < |data| && Strict(data, i) && WellFormed(st) && ReadRecord(data, i, st).Next?
    ensures var r := ReadRecord(data, i, st);
            && i + r.used <= |data| && Strict(data, i + r.used)
            && WellFormed(r.stack) && Serialize(r.stack) == Serialize(st) + data[i..i + r.used]
  {
    hide U16At, U32At, Words32, WellFormed, Serialize, Record, LE32, ConstArgs;
    var tag, code, vlen: nat, w := data[i], data[i + 1], data[i + 2], U16At(data, i + 3);
    HeaderWrites(data, i);
    if tag == TAG_VAR {
      WordWrites(data, i + 5);
      One(Var(code, w, U32At(data, i + 5)));
      SerializeAppend(st, [Var(code, w, U32At(data, i + 5))]);
      assert data[i..i + 9] == data[i..i + 5] + data[i + 5..i + 9];
    } else if tag == TAG_LEAF_CONST {
      WordsWrite(data, i + 5, vlen);
      One(Const(code, w, Words32(data, i + 5, vlen)));
      SerializeAppend(st, [Const(code, w, Words32(data, i + 5, vlen))]);
      assert data[i..i + 5 + 4 * vlen] == data[i..i + 5] + data[i + 5..i + 5 + 4 * vlen];
    } else {
      var n := |st| - vlen;
      var low, kids := st[..n], st[n..];
      assert st == low + kids;
      WellFormedParts(st, n);
      One(Node(code, w, kids));
      SerializeAppend(low, kids);
      SerializeAppend(low, [Node(code, w, kids)]);
    }
  }

  lemma {:induction false} AcceptedIsWritten(data: seq<u8>, i: nat, st: seq<Tree>)
    requires Strict(data, i) && WellFormed(st) && i <= |data| && Machine(data, i, st).Some?
    ensures var r := Machine(data, i, st).value; WellFormed(r) && Serialize(r) == Serialize(st) + data[i..]
    decreases |data| - i
  {
    hide ReadRecord, WellFormed, Serialize, Strict;
    if i < |data| {
      RecordWrites(data, i, st);
      var r := ReadRecord(data, i, st);
      AcceptedIsWritten(data, i + r.used, r.stack);
      assert data[i..] == data[i..i + r.used] + data[i + r.used..];
    } else {
      assert Serialize(st) + data[i..] == Serialize(st);
    }
  }

  /** On records as the encoder writes them, the decoder accepts exactly the serialized forests. */
  lemma AcceptsExactly(data: seq<u8>, ts: seq<Tree>)
    requires Strict(data, 0)
    ensures Machine(data, 0, []) == Some(ts) <==> WellFormed(ts) && Serialize(ts) == data
  {
    hide Strict, Machine;
    assert WellFormed([]) && Serialize([]) == [];
    if Machine(data, 0, []) == Some(ts) {
      AcceptedIsWritten(data, 0, []);
      assert [] + data[0..] == data;
    }
    if WellFormed(ts) && Serialize(ts) == data { MachineInvertsAll(ts); }
  }
}
