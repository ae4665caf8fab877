/** What each call on a JSON stream does to it: jsmn/cc_jsmnStream.c on values. */
module JsonStreamState {
  import opened Json

  const MAX_DEPTH := 32
  const FIRST_SIZE := 256

  datatype Kind = Undefined | Object | Array | String | Primitive

  datatype Frame = Frame(kind: Kind, hasKey: bool, hasEnd: bool, count: nat)

  /** The frames in use, innermost last, the text so far and the size of the block that holds it. */
  datatype State = State(text: string, size: nat, err: bool, stack: seq<Frame>)

  const NEW := State("", 0, false, [Frame(Undefined, false, false, 0)])

  /** Text is a string value, Token one of the other leaves; both carry what was formatted. */
  datatype Call = BeginObject | BeginArray | End | Key(text: string) | Text(text: string) | Token(text: string) | Buffer

  function Top(s: State): Frame
    requires s.stack != []
  {
    s.stack[|s.stack| - 1]
  }

  function SetTop(s: State, f: Frame): State
    requires s.stack != []
  {
    s.(stack := s.stack[|s.stack| - 1 := f])
  }

  function Fail(s: State): (State, bool) { (s.(err := true), false) }

  // ---------------------------------------------------------------- the buffer

  function Grow(size: nat, need: nat): (r: nat)
    requires size > 0
    ensures need <= r && size <= r && (r == size || r < 2 * need)
    decreases need - size
  {
    if size < need then Grow(2 * size, need) else size
  }

  /** The size of the block that takes over when need characters must fit. */
  function Room(size: nat, need: nat): (r: nat)
    ensures need <= r && size <= r
  {
    if size < need then Grow(if size == 0 then FIRST_SIZE else size, need) else size
  }

  /** Reallocation succeeds for blocks up to the limit; the blocks asked for in one call only grow. */
  function Cat(s: State, w: string, limit: nat): (r: (State, bool))
    ensures r.0.stack == s.stack && (s.err ==> r.0.err)
  {
    var need := |s.text| + |w| + 1;
    var size := Room(s.size, need);
    if s.size < need && limit < size then Fail(s)
    else (s.(text := s.text + w, size := size), true)
  }

  function CatAll(s: State, ws: seq<string>, limit: nat): (r: (State, bool))
    ensures r.0.stack == s.stack && (s.err ==> r.0.err)
    decreases |ws|
  {
    if ws == [] then (s, true)
    else
      var (t, ok) := Cat(s, ws[0], limit);
      if ok then CatAll(t, ws[1..], limit) else (t, false)
  }

  // ---------------------------------------------------------------- calls

  predicate Leaf(k: Kind) { k == String || k == Primitive }

  function Emit(s: State, kind: Kind, w: string, limit: nat): (r: (State, bool))
    ensures r.0.stack == s.stack && (s.err ==> r.0.err)
  {
    if kind == String then CatAll(s, ["\"", w, "\""], limit) else Cat(s, w, limit)
  }

  /** Opens a frame for a container below the innermost one; a leaf needs none. */
  function Enter(s: State, kind: Kind, w: string, limit: nat): (r: (State, bool))
    ensures (s.stack != [] ==> r.0.stack != []) && (s.err ==> r.0.err)
  {
    if Leaf(kind) then Emit(s, kind, w, limit)
    else if |s.stack| >= MAX_DEPTH then Fail(s)
    else Emit(s.(stack := s.stack + [Frame(kind, false, false, 0)]), kind, w, limit)
  }

  function Next(n: nat): nat { (n + 1) % WRAP }

  /** Makes way for a child of the innermost container: takes up its key, or separates it from its neighbour. */
  function Place(s: State, limit: nat): (r: (State, bool))
    requires s.stack != []
    ensures r.0.stack != [] && (s.err ==> r.0.err)
  {
    var f := Top(s);
    if f.kind == Object && f.hasKey && !f.hasEnd then (SetTop(s, f.(hasKey := false)), true)
    else if f.kind == Array && !f.hasEnd then
      var (t, ok) := if f.count != 0 then Cat(s, ",", limit) else (s, true);
      if ok then (SetTop(t, f.(count := Next(f.count))), true) else (t, false)
    else Fail(s)
  }

  function Val(s: State, kind: Kind, w: string, limit: nat): (r: (State, bool))
    requires s.stack != []
    ensures r.0.stack != [] && (s.err ==> r.0.err)
  {
    if Top(s).kind == Undefined then Emit(SetTop(s, Frame(kind, false, Leaf(kind), 0)), kind, w, limit)
    else
      var (t, ok) := Place(s, limit);
      if ok then Enter(t, kind, w, limit) else (t, false)
  }

  function KeyCall(s: State, w: string, limit: nat): (r: (State, bool))
    requires s.stack != []
    ensures r.0.stack != [] && (s.err ==> r.0.err)
  {
    var f := Top(s);
    if f.kind == Object && !f.hasKey && !f.hasEnd then
      var s1 := SetTop(s, f.(hasKey := true));
      var (t, ok) := if f.count != 0 then Cat(s1, ",", limit) else (s1, true);
      if ok then CatAll(SetTop(t, f.(hasKey := true, count := Next(f.count))), ["\"", w, "\"", ":"], limit)
      else (t, false)
    else Fail(s)
  }

  function Leave(s: State): State
    requires s.stack != []
  {
    if |s.stack| > 1 then s.(stack := s.stack[..|s.stack| - 1]) else SetTop(s, Top(s).(hasEnd := true))
  }

  function EndCall(s: State, limit: nat): (r: (State, bool))
    requires s.stack != []
    ensures r.0.stack != [] && (s.err ==> r.0.err)
  {
    var f := Top(s);
    if f.kind == Object && !f.hasKey && !f.hasEnd then
      var (t, ok) := Cat(s, "}", limit);
      if ok then (Leave(t), true) else (t, false)
    else if f.kind == Array && !f.hasEnd then
      var (t, ok) := Cat(s, "]", limit);
      if ok then (Leave(t), true) else (t, false)
    else Fail(s)
  }

  predicate Complete(s: State)
    requires s.stack != []
  {
    var f := Top(s);
    !s.err && |s.stack| == 1 && f.kind != Undefined && !f.hasKey && f.hasEnd
  }

  function Fetch(s: State): Option<string>
    requires s.stack != []
  {
    if Complete(s) && s.size > 0 then Some(s.text) else None
  }

  /** The state after a call, and whether the call reported success. Texts are cut before they are written. */
  function Step(s: State, c: Call, limit: nat): (r: (State, bool))
    requires s.stack != []
    ensures r.0.stack != [] && (s.err ==> r.0.err)
  {
    match c
    case BeginObject => Val(s, Object, "{", limit)
    case BeginArray => Val(s, Array, "[", limit)
    case End => EndCall(s, limit)
    case Key(text) => KeyCall(s, Cut(text), limit)
    case Text(text) => Val(s, String, Cut(text), limit)
    case Token(text) => Val(s, Primitive, Cut(text), limit)
    case Buffer => if Complete(s) then (s, s.size > 0) else Fail(s)
  }

  datatype Event = Event(call: Call, limit: nat)

  /** The state a new stream is in after a run of calls, each with its own luck at reallocation. */
  function Run(es: seq<Event>): (s: State)
    ensures s.stack != []
  {
    if es == [] then NEW
    else
      var k := |es| - 1;
      Step(Run(es[..k]), es[k].call, es[k].limit).0
  }
}
