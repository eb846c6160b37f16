/**
 * What is left of a run when values are told apart by == alone. A restore may keep a value that
 * equals the new one, so this is what the bridge can promise; and it is enough for a direct run
 * to take the same course.
 */
module UpToEquality {
  import opened Wrappers
  import opened Contexts
  import opened Bridge

  function ValueAt<K>(m: map<K, Value>, k: K): Value {
    if k in m then m[k] else Nothing
  }

  function DataAt(locals: map<Key, Data>, key: Key): Data {
    if key in locals then locals[key] else map[]
  }

  function BlurData(d: Data): Data {
    map attr | attr in d :: Canonical(ValueAt(d, attr))
  }

  function BlurFlat(st: Flat): Flat {
    Flat(map key | key in st.vars :: Canonical(ValueAt(st.vars, key)),
         map key | key in st.locals :: BlurData(DataAt(st.locals, key)))
  }

  function BlurOutcome(o: Outcome): Outcome {
    match o
    case Gave(v) => Gave(Canonical(v))
    case _ => o
  }

  function BlurFound(found: Option<Value>): Option<Value> {
    if found.Some? then Some(Canonical(found.value)) else None
  }

  function BlurRead(read: Read): Read {
    match read
    case VarRead(x, found) => VarRead(x, BlurFound(found))
    case LocalRead(l, attr, found) => LocalRead(l, attr, BlurFound(found))
  }

  function BlurReads(found: seq<Read>): (blurred: seq<Read>)
    ensures |blurred| == |found|
    ensures forall i | 0 <= i < |found| :: blurred[i] == BlurRead(found[i])
  {
    seq(|found|, i requires 0 <= i < |found| => BlurRead(found[i]))
  }

  lemma BlurAppend(a: seq<Read>, b: seq<Read>)
    ensures BlurReads(a + b) == BlurReads(a) + BlurReads(b)
  {
  }

  // Two runs that == cannot tell apart.
  predicate Alike(a: Direct, b: Direct) {
    && BlurOutcome(a.outcome) == BlurOutcome(b.outcome)
    && BlurFlat(a.state) == BlurFlat(b.state)
    && BlurReads(a.observed) == BlurReads(b.observed)
  }

  lemma BlurSetVar(st: Flat, key: Key, v: Value)
    ensures BlurFlat(st.(vars := st.vars[key := v])) ==
      BlurFlat(st).(vars := BlurFlat(st).vars[key := Canonical(v)])
  {
    var set' := st.(vars := st.vars[key := v]);
    assert BlurFlat(set').vars == BlurFlat(st).vars[key := Canonical(v)];
  }

  lemma BlurSetLocal(st: Flat, key: Key, data: Data)
    ensures BlurFlat(st.(locals := st.locals[key := data])) ==
      BlurFlat(st).(locals := BlurFlat(st).locals[key := BlurData(data)])
  {
    var set' := st.(locals := st.locals[key := data]);
    assert BlurFlat(set').locals == BlurFlat(st).locals[key := BlurData(data)];
  }

  lemma BlurDataSet(data: Data, attr: string, v: Value)
    ensures BlurData(data[attr := v]) == BlurData(data)[attr := Canonical(v)]
    ensures BlurData(data - {attr}) == BlurData(data) - {attr}
  {
  }

  lemma BlurLookups(st: Flat, x: nat, l: nat, attr: string)
    ensures BlurFound(Lookup(st.vars, User(x))) == Lookup(BlurFlat(st).vars, User(x))
    ensures BlurData(AttributesOf(st, l)) == AttributesOf(BlurFlat(st), l)
    ensures BlurFound(Lookup(AttributesOf(st, l), attr)) == Lookup(AttributesOf(BlurFlat(st), l), attr)
    ensures attr in AttributesOf(st, l) <==> attr in AttributesOf(BlurFlat(st), l)
  {
    assert BlurData(map[]) == map[];
  }

  lemma ReadRespects(p: Program, input: Value, input': Value, async: bool, st: Flat, st': Flat)
    requires p.GetVar? || p.GetLocal?
    requires BlurFlat(st) == BlurFlat(st')
    ensures Alike(RunDirect(p, input, async, st), RunDirect(p, input', async, st'))
  {
    if p.GetVar? {
      BlurLookups(st, p.x, 0, "");
      BlurLookups(st', p.x, 0, "");
    } else {
      BlurLookups(st, 0, p.l, p.attr);
      BlurLookups(st', 0, p.l, p.attr);
    }
  }

  lemma WriteRespects(p: Program, input: Value, input': Value, async: bool, st: Flat, st': Flat)
    requires p.SetLocal? || p.DelLocal?
    requires Equal(input, input') && BlurFlat(st) == BlurFlat(st')
    ensures Alike(RunDirect(p, input, async, st), RunDirect(p, input', async, st'))
  {
    BlurLookups(st, 0, p.l, p.attr);
    BlurLookups(st', 0, p.l, p.attr);
    var data, data' := AttributesOf(st, p.l), AttributesOf(st', p.l);
    var v, v' := if p.SetLocal? then Eval(p.arg, input) else input, if p.SetLocal? then Eval(p.arg, input') else input';
    BlurDataSet(data, p.attr, v);
    BlurDataSet(data', p.attr, v');
    if p.SetLocal? {
      BlurSetLocal(st, LocalVar(p.l), data[p.attr := v]);
      BlurSetLocal(st', LocalVar(p.l), data'[p.attr := v']);
    } else {
      BlurSetLocal(st, LocalVar(p.l), data - {p.attr});
      BlurSetLocal(st', LocalVar(p.l), data' - {p.attr});
    }
  }

  // A direct run cannot tell equal inputs and equal variables apart either: every test a program
  // makes is an ==.
  lemma {:induction false} DirectRespects(p: Program, input: Value, input': Value, async: bool, st: Flat, st': Flat)
    requires Equal(input, input') && BlurFlat(st) == BlurFlat(st')
    ensures Alike(RunDirect(p, input, async, st), RunDirect(p, input', async, st'))
    decreases p, 1
  {
    match p
    case Give(_) =>
    case GetVar(_) => ReadRespects(p, input, input', async, st, st');
    case GetLocal(_, _) => ReadRespects(p, input, input', async, st, st');
    case SetVar(x, arg) =>
      BlurSetVar(st, User(x), Eval(arg, input));
      BlurSetVar(st', User(x), Eval(arg, input'));
    case SetLocal(_, _, _) => WriteRespects(p, input, input', async, st, st');
    case DelLocal(_, _) => WriteRespects(p, input, input', async, st, st');
    case Throw(_) =>
    case Then(_, _) => TwoRespect(p, input, input', async, st, st');
    case Try(_, _) => TwoRespect(p, input, input', async, st, st');
    case If(v, a, b) => DirectRespects(if Equal(input, v) then a else b, input, input', async, st, st');
    case SyncToAsync(_, a) =>
      if async {
        DirectRespects(a, input, input', false, st, st');
      }
    case AsyncToSync(_, a) =>
      if !async {
        DirectRespects(a, input, input', true, st, st');
      }
    case Task(a) =>
      if async {
        DirectRespects(a, input, input', true, st, st');
      }
  }

  lemma {:induction false} TwoRespect(p: Program, input: Value, input': Value, async: bool, st: Flat, st': Flat)
    requires p.Then? || p.Try?
    requires Equal(input, input') && BlurFlat(st) == BlurFlat(st')
    ensures Alike(RunDirect(p, input, async, st), RunDirect(p, input', async, st'))
    decreases p, 0
  {
    var a := if p.Then? then p.first else p.body;
    DirectRespects(a, input, input', async, st, st');
    var d, d' := RunDirect(a, input, async, st), RunDirect(a, input', async, st');
    if p.Then? && d.outcome.Gave? {
      DirectRespects(p.second, d.outcome.v, d'.outcome.v, async, d.state, d'.state);
      var e, e' := RunDirect(p.second, d.outcome.v, async, d.state), RunDirect(p.second, d'.outcome.v, async, d'.state);
      BlurAppend(d.observed, e.observed);
      BlurAppend(d'.observed, e'.observed);
    } else if p.Try? && d.outcome.Raised? {
      DirectRespects(p.handler, input, input', async, d.state, d'.state);
      var e, e' := RunDirect(p.handler, input, async, d.state), RunDirect(p.handler, input', async, d'.state);
      BlurAppend(d.observed, e.observed);
      BlurAppend(d'.observed, e'.observed);
    }
  }
}
