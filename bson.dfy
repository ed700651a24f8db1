/**
 * BSON values and documents as the aggregation stages use them. A document is
 * an ordered list of entries; inserting a key that is present replaces its
 * value where it stands, inserting a new key appends it.
 *
 * `Eval` is a small evaluator for the per-row aggregation expressions the
 * stages contain (`$cond`, `$ifNull`, `$eq`, `$ne`, field paths and
 * literals), following MongoDB's rules: a missing field is distinct from
 * null, and a `$cond` condition is false exactly for false, null, zero and a
 * missing value.
 */
module Bson {
  import opened Wrappers
  import opened Seqs

  datatype Value =
    | Null
    | Bool(b: bool)
    | Int(i: int)
    | Str(s: string)
    | Arr(items: seq<Value>)
    | Doc(entries: Document)

  datatype Entry = Entry(key: string, val: Value)

  type Document = seq<Entry>

  function KeySeq(d: Document): (r: seq<string>)
    ensures |r| == |d| && forall i :: 0 <= i < |d| ==> r[i] == d[i].key
  {
    if d == [] then [] else [d[0].key] + KeySeq(d[1..])
  }

  function Keys(d: Document): (r: set<string>)
    ensures forall k :: k in r <==> k in KeySeq(d)
  {
    set k | k in KeySeq(d)
  }

  /** The value of the first entry with key `k`. */
  function Get(d: Document, k: string): (r: Option<Value>)
    ensures r.Some? <==> k in KeySeq(d)
  {
    if d == [] then None
    else if d[0].key == k then Some(d[0].val)
    else Get(d[1..], k)
  }

  /** `Document::insert`: replaces the value of an existing key in place, or appends. */
  function Insert(d: Document, k: string, v: Value): (r: Document)
    ensures KeySeq(r) == if k in KeySeq(d) then KeySeq(d) else KeySeq(d) + [k]
  {
    if d == [] then [Entry(k, v)]
    else if d[0].key == k then
      var r := [Entry(k, v)] + d[1..];
      assert r[1..] == d[1..];
      r
    else
      var r := [d[0]] + Insert(d[1..], k, v);
      assert r[1..] == Insert(d[1..], k, v);
      r
  }

  /** After an insert, the key holds the new value and every other key its old one. */
  lemma {:induction false} InsertGet(d: Document, k: string, v: Value, k': string)
    ensures Get(Insert(d, k, v), k') == if k' == k then Some(v) else Get(d, k')
  {
    if d != [] && d[0].key != k {
      InsertGet(d[1..], k, v, k');
      var r := Insert(d, k, v);
      assert r[1..] == Insert(d[1..], k, v);
    } else if d != [] {
      assert (([Entry(k, v)] + d[1..])[1..]) == d[1..];
    }
  }

  lemma InsertKeys(d: Document, k: string, v: Value)
    ensures Keys(Insert(d, k, v)) == Keys(d) + {k}
  {
  }

  /** Inserting keeps the keys distinct. */
  lemma InsertNoDup(d: Document, k: string, v: Value)
    requires NoDup(KeySeq(d))
    ensures NoDup(KeySeq(Insert(d, k, v)))
  {
  }

  // ---------------------------------------------------------------------------
  // Field references

  /** The field paths a value refers to: its `"$path"` strings, without the `$`. */
  function Refs(v: Value): set<string>
  {
    match v
    case Str(s) => if |s| > 0 && s[0] == '$' then {s[1..]} else {}
    case Arr(items) => RefsOfValues(items)
    case Doc(es) => RefsOfDoc(es)
    case _ => {}
  }

  function RefsOfValues(vs: seq<Value>): set<string>
  {
    if vs == [] then {} else Refs(vs[0]) + RefsOfValues(vs[1..])
  }

  /** The field paths the values of a document refer to (its keys are not references). */
  function RefsOfDoc(d: Document): set<string>
  {
    if d == [] then {} else Refs(d[0].val) + RefsOfDoc(d[1..])
  }

  /** Inserting adds at most the references of the inserted value. */
  lemma {:induction false} RefsOfInsert(d: Document, k: string, v: Value)
    ensures RefsOfDoc(Insert(d, k, v)) <= RefsOfDoc(d) + Refs(v)
  {
    if d != [] && d[0].key != k {
      RefsOfInsert(d[1..], k, v);
    }
  }

  // ---------------------------------------------------------------------------
  // Field paths

  /** The part of `s` before its first `.`. */
  function Head(s: string): (r: string)
    ensures |r| <= |s| && r == s[..|r|] && '.' !in r
  {
    if s == [] || s[0] == '.' then [] else [s[0]] + Head(s[1..])
  }

  lemma {:induction false} HeadOfDotted(a: string, b: string)
    requires '.' !in a
    ensures Head(a + "." + b) == a
  {
    if a != [] {
      assert (a + "." + b)[1..] == a[1..] + "." + b;
      HeadOfDotted(a[1..], b);
    }
  }

  lemma {:induction false} HeadOfPlain(a: string)
    requires '.' !in a
    ensures Head(a) == a
  {
    if a != [] {
      HeadOfPlain(a[1..]);
    }
  }

  /** The value at a dotted field path of a row; `None` when the field is missing. */
  function Lookup(row: Document, path: string): Option<Value>
    decreases |path|
  {
    var h := Head(path);
    if |h| == |path| then Get(row, path)
    else
      var sub := Get(row, h);
      if sub.Some? && sub.value.Doc? then Lookup(sub.value.entries, path[|h| + 1..]) else None
  }

  lemma LookupDotted(row: Document, a: string, b: string)
    requires '.' !in a
    ensures var sub := Get(row, a);
      Lookup(row, a + "." + b) == if sub.Some? && sub.value.Doc? then Lookup(sub.value.entries, b) else None
  {
    HeadOfDotted(a, b);
    assert (a + "." + b)[|a| + 1..] == b;
  }

  lemma LookupPlain(row: Document, a: string)
    requires '.' !in a
    ensures Lookup(row, a) == Get(row, a)
  {
    HeadOfPlain(a);
  }

  // ---------------------------------------------------------------------------
  // Per-row expressions

  /** MongoDB's truthiness: false, null, zero and a missing value are false. */
  predicate Truthy(v: Option<Value>)
  {
    match v
    case None => false
    case Some(Null) => false
    case Some(Bool(b)) => b
    case Some(Int(i)) => i != 0
    case Some(_) => true
  }

  /** A literal string that is a field path, such as `"$amount"`. */
  function FieldRef(path: string): (v: Value)
    ensures Refs(v) == {path}
  {
    assert ("$" + path)[1..] == path;
    Str("$" + path)
  }

  /** A one-operator expression document `{op: arg}`. */
  function Op(op: string, arg: Value): (v: Value)
    ensures Refs(v) == Refs(arg)
  {
    var d := [Entry(op, arg)];
    assert d[1..] == [];
    assert RefsOfDoc(d) == Refs(arg) + RefsOfDoc([]);
    Doc(d)
  }

  function Eval(e: Value, row: Document): Option<Value>
  {
    match e
    case Str(s) => if |s| > 0 && s[0] == '$' then Lookup(row, s[1..]) else Some(e)
    case Doc(es) =>
      if |es| == 1 && |es[0].key| > 0 && es[0].key[0] == '$' then
        var op, arg := es[0].key, es[0].val;
        if op == "$cond" && arg.Arr? && |arg.items| == 3 then
          if Truthy(Eval(arg.items[0], row)) then Eval(arg.items[1], row) else Eval(arg.items[2], row)
        else if op == "$cond" && arg.Doc? && |arg.entries| == 3
          && arg.entries[0].key == "if" && arg.entries[1].key == "then" && arg.entries[2].key == "else" then
          if Truthy(Eval(arg.entries[0].val, row)) then Eval(arg.entries[1].val, row) else Eval(arg.entries[2].val, row)
        else if op == "$ifNull" && arg.Arr? && |arg.items| == 2 then
          var first := Eval(arg.items[0], row);
          if first.None? || first == Some(Null) then Eval(arg.items[1], row) else first
        else if op == "$eq" && arg.Arr? && |arg.items| == 2 then
          Some(Bool(Eval(arg.items[0], row) == Eval(arg.items[1], row)))
        else if op == "$ne" && arg.Arr? && |arg.items| == 2 then
          Some(Bool(Eval(arg.items[0], row) != Eval(arg.items[1], row)))
        else None
      else Some(e)
    case _ => Some(e)
  }

  // ---------------------------------------------------------------------------
  // One operator at a time

  lemma RefsOfPair(a: Value, b: Value)
    ensures Refs(Arr([a, b])) == Refs(a) + Refs(b)
  {
    assert [a, b][1..] == [b];
    assert [b][1..] == [];
    assert RefsOfValues([b]) == Refs(b) + RefsOfValues([]);
    assert RefsOfValues([a, b]) == Refs(a) + RefsOfValues([b]);
  }

  lemma RefsOfTriple(a: Value, b: Value, c: Value)
    ensures Refs(Arr([a, b, c])) == Refs(a) + Refs(b) + Refs(c)
  {
    assert [a, b, c][1..] == [b, c];
    RefsOfPair(b, c);
    assert RefsOfValues([a, b, c]) == Refs(a) + RefsOfValues([b, c]);
  }

  lemma EvalCond(c: Value, a: Value, b: Value, row: Document)
    ensures Eval(Op("$cond", Arr([c, a, b])), row) == if Truthy(Eval(c, row)) then Eval(a, row) else Eval(b, row)
  {
  }

  lemma EvalCondDoc(c: Value, a: Value, b: Value, row: Document)
    ensures Eval(Op("$cond", Doc([Entry("if", c), Entry("then", a), Entry("else", b)])), row)
      == if Truthy(Eval(c, row)) then Eval(a, row) else Eval(b, row)
  {
  }

  lemma EvalIfNull(a: Value, b: Value, row: Document)
    ensures var first := Eval(a, row);
      Eval(Op("$ifNull", Arr([a, b])), row) == if first.None? || first == Some(Null) then Eval(b, row) else first
  {
  }

  lemma EvalEq(a: Value, b: Value, row: Document)
    ensures Eval(Op("$eq", Arr([a, b])), row) == Some(Bool(Eval(a, row) == Eval(b, row)))
  {
  }

  lemma EvalNe(a: Value, b: Value, row: Document)
    ensures Eval(Op("$ne", Arr([a, b])), row) == Some(Bool(Eval(a, row) != Eval(b, row)))
  {
  }

  lemma EvalFieldRef(c: string, row: Document)
    ensures Eval(FieldRef(c), row) == Lookup(row, c)
  {
    assert ("$" + c)[1..] == c;
  }

  lemma LookupRowOfOne(c: string, v: Value)
    requires '.' !in c
    ensures Lookup([Entry(c, v)], c) == Some(v)
  {
    LookupPlain([Entry(c, v)], c);
  }

  // ---------------------------------------------------------------------------
  // A run of inserts

  /** The document a loop of `insert` calls over `es` builds from `d`. */
  function InsertAll(d: Document, es: seq<Entry>): Document
    decreases |es|
  {
    if es == [] then d
    else
      var n := |es| - 1;
      Insert(InsertAll(d, es[..n]), es[n].key, es[n].val)
  }

  lemma InsertAllSnoc(d: Document, es: seq<Entry>, e: Entry)
    ensures InsertAll(d, es + [e]) == Insert(InsertAll(d, es), e.key, e.val)
  {
    assert (es + [e])[..|es|] == es;
  }

  /** One more insert of a loop over `es`. */
  lemma InsertAllStep(d: Document, es: seq<Entry>, i: nat)
    requires i < |es|
    ensures InsertAll(d, es[..i + 1]) == Insert(InsertAll(d, es[..i]), es[i].key, es[i].val)
  {
    TakeStep(es, i);
  }

  /** Filling an empty document keeps the first occurrence of every key, in order. */
  lemma {:induction false} InsertAllKeySeq(es: seq<Entry>)
    ensures KeySeq(InsertAll([], es)) == Dedup(KeySeq(es))
  {
    if es != [] {
      var n := |es| - 1;
      var prev := InsertAll([], es[..n]);
      InsertAllKeySeq(es[..n]);
      KeySeqSnoc(es[..n], es[n]);
      SplitLast(es);
      DedupSnoc(KeySeq(es[..n]), es[n].key);
      assert KeySeq(InsertAll([], es)) == KeySeq(Insert(prev, es[n].key, es[n].val));
    }
  }

  lemma KeySeqSnoc(d: Document, e: Entry)
    ensures KeySeq(d + [e]) == KeySeq(d) + [e.key]
  {
    var l, r := KeySeq(d + [e]), KeySeq(d) + [e.key];
    assert |l| == |r|;
    forall i | 0 <= i < |l| ensures l[i] == r[i] {
      if i < |d| {
        assert (d + [e])[i] == d[i];
      }
    }
  }

  /** A key holds the value of its last insert. */
  lemma {:induction false} InsertAllGetLast(d: Document, es: seq<Entry>, i: nat)
    requires i < |es|
    requires forall j :: i < j < |es| ==> es[j].key != es[i].key
    ensures Get(InsertAll(d, es), es[i].key) == Some(es[i].val)
  {
    var n := |es| - 1;
    InsertGet(InsertAll(d, es[..n]), es[n].key, es[n].val, es[i].key);
    if i < n {
      InsertAllGetLast(d, es[..n], i);
    }
  }

  /** A key no insert touches keeps its value. */
  lemma {:induction false} InsertAllGetOther(d: Document, es: seq<Entry>, k: string)
    requires k !in KeySeq(es)
    ensures Get(InsertAll(d, es), k) == Get(d, k)
  {
    if es != [] {
      var n := |es| - 1;
      KeySeqSnoc(es[..n], es[n]);
      SplitLast(es);
      InsertGet(InsertAll(d, es[..n]), es[n].key, es[n].val, k);
      InsertAllGetOther(d, es[..n], k);
    }
  }

  /** Inserts add no references beyond those of the inserted values. */
  lemma {:induction false} RefsOfInsertAll(d: Document, es: seq<Entry>)
    ensures RefsOfDoc(InsertAll(d, es)) <= RefsOfDoc(d) + RefsOfDoc(es)
  {
    if es != [] {
      var n := |es| - 1;
      RefsOfInsertAll(d, es[..n]);
      RefsOfInsert(InsertAll(d, es[..n]), es[n].key, es[n].val);
      RefsOfDocSnoc(es[..n], es[n]);
      SplitLast(es);
    }
  }

  lemma {:induction false} RefsOfDocSnoc(d: Document, e: Entry)
    ensures RefsOfDoc(d + [e]) == RefsOfDoc(d) + Refs(e.val)
  {
    if d == [] {
      assert [e][1..] == [];
    } else {
      assert (d + [e])[1..] == d[1..] + [e];
      RefsOfDocSnoc(d[1..], e);
    }
  }

  /** A reference of a document is a reference of one of its values. */
  lemma {:induction false} RefsOfDocMembership(d: Document, r: string)
    ensures r in RefsOfDoc(d) <==> exists i :: 0 <= i < |d| && r in Refs(d[i].val)
  {
    if d != [] {
      RefsOfDocMembership(d[1..], r);
      if r in RefsOfDoc(d[1..]) {
        var i :| 0 <= i < |d[1..]| && r in Refs(d[1..][i].val);
        assert d[i + 1] == d[1..][i];
      }
      forall i | 1 <= i < |d| && r in Refs(d[i].val) ensures r in RefsOfDoc(d[1..]) {
        assert d[1..][i - 1] == d[i];
      }
    }
  }

  lemma {:induction false} InsertAllKeys(d: Document, es: seq<Entry>)
    ensures Keys(InsertAll(d, es)) == Keys(d) + Keys(es)
  {
    if es != [] {
      var n := |es| - 1;
      InsertAllKeys(d, es[..n]);
      InsertKeys(InsertAll(d, es[..n]), es[n].key, es[n].val);
      KeySeqSnoc(es[..n], es[n]);
      SplitLast(es);
    }
  }

  lemma {:induction false} KeySeqConcat(a: Document, b: Document)
    ensures KeySeq(a + b) == KeySeq(a) + KeySeq(b)
  {
    if a != [] {
      assert (a + b)[1..] == a[1..] + b;
      KeySeqConcat(a[1..], b);
    } else {
      assert a + b == b;
    }
  }

  /** The keys of flattened entry blocks are the flattened key blocks. */
  lemma {:induction false} KeySeqFlatten(bs: seq<Document>)
    ensures KeySeq(Flatten(bs)) == Flatten(seq(|bs|, i requires 0 <= i < |bs| => KeySeq(bs[i])))
  {
    var ks := seq(|bs|, i requires 0 <= i < |bs| => KeySeq(bs[i]));
    if bs != [] {
      var n := |bs| - 1;
      KeySeqFlatten(bs[..n]);
      KeySeqConcat(Flatten(bs[..n]), bs[n]);
      assert ks[..n] == seq(n, i requires 0 <= i < n => KeySeq(bs[..n][i]));
    }
  }

  /** Inserting a concatenation is inserting one part after the other. */
  lemma {:induction false} InsertAllConcat(d: Document, a: seq<Entry>, b: seq<Entry>)
    ensures InsertAll(d, a + b) == InsertAll(InsertAll(d, a), b)
  {
    if b == [] {
      assert a + b == a;
    } else {
      var n := |b| - 1;
      InsertAllConcat(d, a, b[..n]);
      assert (a + b)[..|a + b| - 1] == a + b[..n];
    }
  }

  /** An entry whose key occurs once is found with its value. */
  lemma InsertAllGetUnique(d: Document, es: seq<Entry>, e: Entry)
    requires e in es && NoDup(KeySeq(es))
    ensures Get(InsertAll(d, es), e.key) == Some(e.val)
  {
    var i :| 0 <= i < |es| && es[i] == e;
    InsertAllGetLast(d, es, i);
  }

  /** A key whose every insert carries the same value ends with that value. */
  lemma {:induction false} InsertAllGetAgreeing(d: Document, es: seq<Entry>, k: string, v: Value)
    requires k in KeySeq(es)
    requires forall i :: 0 <= i < |es| && es[i].key == k ==> es[i].val == v
    ensures Get(InsertAll(d, es), k) == Some(v)
  {
    var n := |es| - 1;
    InsertGet(InsertAll(d, es[..n]), es[n].key, es[n].val, k);
    if es[n].key != k {
      KeySeqSnoc(es[..n], es[n]);
      SplitLast(es);
      InsertAllGetAgreeing(d, es[..n], k, v);
    }
  }
}
