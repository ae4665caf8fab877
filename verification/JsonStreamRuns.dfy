/** What whole runs of calls on a JSON stream write, against what the calls describe. */
module JsonStreamRuns {
  import opened Json
  import opened JsonStreamState

  /** A container still open: an array with the items it has, or an object with its members and the key in hand. */
  datatype Open = InArray(items: seq<Json>) | InObject(members: seq<Member>, key: Option<string>)

  /** What the calls so far describe: nothing yet, a path of open containers, or one finished value. */
  datatype Progress = Nothing | Inside(path: seq<Open>) | Done(value: Json)

  // ---------------------------------------------------------------- what calls describe

  /** The progress once value t stands where the path says. */
  function Put(path: seq<Open>, t: Json): Option<Progress> {
    if path == [] then Some(Done(t))
    else
      var k := |path| - 1;
      match path[k]
      case InArray(items) => Some(Inside(path[..k] + [InArray(items + [t])]))
      case InObject(members, Some(key)) => Some(Inside(path[..k] + [InObject(members + [Member(key, t)], None)]))
      case InObject(_, None) => None
  }

  predicate Ready(path: seq<Open>) { path == [] || path[|path| - 1].InArray? || path[|path| - 1].key.Some? }

  function PathOf(p: Progress): seq<Open>
    requires !p.Done?
  {
    if p.Nothing? then [] else p.path
  }

  /** The meaning of one more call, where it has one. */
  function After(p: Progress, c: Call): Option<Progress> {
    match p
    case Done(_) => if c == Buffer then Some(p) else None
    case _ =>
      var path := PathOf(p);
      match c
      case BeginArray => if Ready(path) then Some(Inside(path + [InArray([])])) else None
      case BeginObject => if Ready(path) then Some(Inside(path + [InObject([], None)])) else None
      case Text(x) => Put(path, Str(x))
      case Token(x) => Put(path, Prim(x))
      case Buffer => None
      case Key(x) => AfterKey(path, x)
      case End => AfterEnd(path)
  }

  function AfterKey(path: seq<Open>, x: string): Option<Progress> {
    if path == [] then None
    else
      var k := |path| - 1;
      match path[k]
      case InObject(members, None) => Some(Inside(path[..k] + [InObject(members, Some(x))]))
      case _ => None
  }

  function AfterEnd(path: seq<Open>): Option<Progress> {
    if path == [] then None
    else
      var k := |path| - 1;
      match path[k]
      case InArray(items) => Put(path[..k], Arr(items))
      case InObject(members, None) => Put(path[..k], Obj(members))
      case InObject(_, Some(_)) => None
  }

  // ---------------------------------------------------------------- the calls that describe a tree

  /** The calls that write a tree, in order. */
  function Calls(t: Json): seq<Call>
    decreases t, 1
  {
    match t
    case Prim(x) => [Token(x)]
    case Str(x) => [Text(x)]
    case Arr(items) => [BeginArray] + CallsItems(items) + [End]
    case Obj(members) => [BeginObject] + CallsMembers(members) + [End]
  }

  function CallsItems(items: seq<Json>): seq<Call>
    decreases items, 0
  {
    if items == [] then []
    else
      var k := |items| - 1;
      CallsItems(items[..k]) + Calls(items[k])
  }

  function CallsMembers(members: seq<Member>): seq<Call>
    decreases members, 0
  {
    if members == [] then []
    else
      var k := |members| - 1;
      CallsMembers(members[..k]) + [Key(members[k].key)] + Calls(members[k].val)
  }

  function SaidOpen(o: Open): seq<Call> {
    match o
    case InArray(items) => [BeginArray] + CallsItems(items)
    case InObject(members, None) => [BeginObject] + CallsMembers(members)
    case InObject(members, Some(x)) => [BeginObject] + CallsMembers(members) + [Key(x)]
  }

  function SaidPath(path: seq<Open>): seq<Call> {
    if path == [] then []
    else
      var k := |path| - 1;
      SaidPath(path[..k]) + SaidOpen(path[k])
  }

  /** The calls that lead to a progress. */
  function Said(p: Progress): seq<Call> {
    match p
    case Nothing => []
    case Inside(path) => SaidPath(path)
    case Done(t) => Calls(t)
  }

  lemma CallsSnoc(items: seq<Json>, members: seq<Member>, key: string, t: Json)
    ensures CallsItems(items + [t]) == CallsItems(items) + Calls(t)
    ensures CallsMembers(members + [Member(key, t)]) == CallsMembers(members) + [Key(key)] + Calls(t)
  {
    hide Calls;
    assert (items + [t])[..|items|] == items;
    assert (members + [Member(key, t)])[..|members|] == members;
  }

  lemma PutOpen(path: seq<Open>, o: Open)
    ensures SaidPath(path + [o]) == SaidPath(path) + SaidOpen(o)
  {
    hide SaidOpen;
    assert (path + [o])[..|path|] == path;
  }

  lemma SaidInArray(items: seq<Json>, t: Json)
    ensures SaidOpen(InArray(items + [t])) == SaidOpen(InArray(items)) + Calls(t)
  {
    hide Calls, CallsItems, CallsMembers;
    CallsSnoc(items, [], "", t);
  }

  lemma SaidInObject(members: seq<Member>, x: string, t: Json)
    ensures SaidOpen(InObject(members + [Member(x, t)], None)) == SaidOpen(InObject(members, Some(x))) + Calls(t)
  {
    hide Calls, CallsItems, CallsMembers;
    CallsSnoc([], members, x, t);
  }

  lemma PutSaid(path: seq<Open>, t: Json)
    requires Put(path, t).Some?
    ensures Said(Put(path, t).value) == SaidPath(path) + Calls(t)
  {
    hide Calls, SaidOpen, SaidPath;
    if path == [] {
      assert SaidPath([]) == [] by { SaidNothing(); }
    } else {
      var k := |path| - 1;
      assert path == path[..k] + [path[k]];
      PutOpen(path[..k], path[k]);
      match path[k]
      case InArray(items) =>
        PutOpen(path[..k], InArray(items + [t]));
        SaidInArray(items, t);
      case InObject(members, key) =>
        PutOpen(path[..k], InObject(members + [Member(key.value, t)], None));
        SaidInObject(members, key.value, t);
    }
  }

  lemma SaidNothing()
    ensures SaidPath([]) == []
  {}

  lemma SaidKey(members: seq<Member>, x: string)
    ensures SaidOpen(InObject(members, Some(x))) == SaidOpen(InObject(members, None)) + [Key(x)]
  {
    hide CallsMembers;
  }

  /** The value that the innermost container becomes when it ends. */
  function Ended(o: Open): Json { if o.InArray? then Arr(o.items) else Obj(o.members) }

  lemma SaidEnd(o: Open)
    requires o.InArray? || o.key.None?
    ensures Calls(Ended(o)) == SaidOpen(o) + [End]
  {
    hide CallsItems, CallsMembers;
  }

  lemma SaidBegin()
    ensures SaidOpen(InArray([])) == [BeginArray] && SaidOpen(InObject([], None)) == [BeginObject]
  {}

  lemma SaidLeaf(x: string)
    ensures Calls(Str(x)) == [Text(x)] && Calls(Prim(x)) == [Token(x)]
  {}

  lemma PathSaid(p: Progress)
    requires !p.Done?
    ensures Said(p) == SaidPath(PathOf(p))
  {}

  lemma AfterKeySaid(path: seq<Open>, x: string)
    requires AfterKey(path, x).Some?
    ensures Said(AfterKey(path, x).value) == SaidPath(path) + [Key(x)]
  {
    hide SaidPath, SaidOpen;
    var k := |path| - 1;
    assert path == path[..k] + [path[k]];
    PutOpen(path[..k], path[k]);
    PutOpen(path[..k], InObject(path[k].members, Some(x)));
    SaidKey(path[k].members, x);
  }

  lemma AfterEndSaid(path: seq<Open>)
    requires AfterEnd(path).Some?
    ensures Said(AfterEnd(path).value) == SaidPath(path) + [End]
  {
    hide SaidPath, SaidOpen, Said, Calls, Put;
    var k := |path| - 1;
    assert path == path[..k] + [path[k]];
    PutOpen(path[..k], path[k]);
    PutSaid(path[..k], Ended(path[k]));
    SaidEnd(path[k]);
  }

  /** A meaningful call adds itself, and nothing else, to the calls described. */
  lemma AfterSaid(p: Progress, c: Call)
    requires After(p, c).Some?
    ensures Said(After(p, c).value) == Said(p) + if c == Buffer then [] else [c]
  {
    hide SaidPath, SaidOpen, Calls, Put, AfterKey, AfterEnd;
    if !p.Done? {
      var path := PathOf(p);
      PathSaid(p);
      SaidBegin();
      match c
      case BeginArray => PutOpen(path, InArray([]));
      case BeginObject => PutOpen(path, InObject([], None));
      case Text(x) => PutSaid(path, Str(x)); SaidLeaf(x);
      case Token(x) => PutSaid(path, Prim(x)); SaidLeaf(x);
      case Key(x) => AfterKeySaid(path, x);
      case End => AfterEndSaid(path);
      case Buffer =>
    }
  }

  // ---------------------------------------------------------------- the text that stands for a progress

  function Begun(o: Open): string {
    match o
    case InArray(items) => "[" + WrittenItems(items)
    case InObject(members, None) => "{" + WrittenMembers(members)
    case InObject(members, Some(x)) => "{" + WrittenMembers(members) + Comma(|members|) + Quoted(Cut(x)) + ":"
  }

  /** What separates the next child of a container from what is there. */
  function Before(o: Open): string { if o.InArray? then Comma(|o.items|) else "" }

  /** The text around the next child of the innermost container. */
  function Around(path: seq<Open>): string {
    if path == [] then ""
    else
      var k := |path| - 1;
      Around(path[..k]) + Begun(path[k]) + Before(path[k])
  }

  function Shown(p: Progress): string {
    match p
    case Nothing => ""
    case Inside(path) => if path == [] then "" else Around(path[..|path| - 1]) + Begun(path[|path| - 1])
    case Done(t) => Written(t)
  }

  lemma WrittenSnoc(items: seq<Json>, members: seq<Member>, m: Member, t: Json)
    ensures WrittenItems(items + [t]) == WrittenItems(items) + Comma(|items|) + Written(t)
    ensures WrittenMembers(members + [m]) == WrittenMembers(members) + Comma(|members|) + WrittenMember(m)
  {
    hide Written, WrittenMember, Comma;
    assert (items + [t])[..|items|] == items;
    assert (members + [m])[..|members|] == members;
  }

  lemma BegunInArray(items: seq<Json>, t: Json)
    ensures Begun(InArray(items + [t])) == Begun(InArray(items)) + Before(InArray(items)) + Written(t)
  {
    hide Written, WrittenItems, WrittenMembers, WrittenMember, Comma;
    WrittenSnoc(items, [], Member("", t), t);
  }

  lemma BegunInObject(members: seq<Member>, x: string, t: Json)
    ensures Begun(InObject(members + [Member(x, t)], None)) == Begun(InObject(members, Some(x))) + Written(t)
  {
    hide Written, WrittenItems, WrittenMembers, Comma, Quoted, Cut;
    WrittenSnoc([], members, Member(x, t), t);
  }

  lemma PutShown(path: seq<Open>, t: Json)
    requires Put(path, t).Some?
    ensures Shown(Put(path, t).value) == Around(path) + Written(t)
  {
    hide Written, Begun, Comma;
    if path != [] {
      var k := |path| - 1;
      assert Put(path, t).value.path[..k] == path[..k];
      match path[k]
      case InArray(items) =>
        BegunInArray(items, t);
      case InObject(members, key) =>
        BegunInObject(members, key.value, t);
    }
  }

  // ---------------------------------------------------------------- the stream keeps step with its calls

  /** The frame of a container whose next child is being written, and the frame of the innermost container. */
  function OuterFrame(o: Open): Frame {
    match o
    case InArray(items) => Frame(Array, false, false, (|items| + 1) % WRAP)
    case InObject(members, _) => Frame(Object, false, false, (|members| + 1) % WRAP)
  }

  function InnerFrame(o: Open): Frame {
    match o
    case InArray(items) => Frame(Array, false, false, |items| % WRAP)
    case InObject(members, None) => Frame(Object, false, false, |members| % WRAP)
    case InObject(members, Some(_)) => Frame(Object, true, false, (|members| + 1) % WRAP)
  }

  function Outer(path: seq<Open>): (r: seq<Frame>)
    ensures |r| == |path|
  {
    if path == [] then [] else Outer(path[..|path| - 1]) + [OuterFrame(path[|path| - 1])]
  }

  function Frames(path: seq<Open>): (r: seq<Frame>)
    requires path != []
    ensures |r| == |path|
  {
    Outer(path[..|path| - 1]) + [InnerFrame(path[|path| - 1])]
  }

  /** No more than room containers inside one another. */
  predicate Fits(t: Json, room: int) {
    match t
    case Prim(_) => true
    case Str(_) => true
    case Arr(items) => room >= 1 && forall x | x in items :: Fits(x, room - 1)
    case Obj(members) => room >= 1 && forall m | m in members :: Fits(m.val, room - 1)
  }

  predicate OpenFits(o: Open, room: int) {
    match o
    case InArray(items) => forall x | x in items :: Fits(x, room)
    case InObject(members, _) => forall m | m in members :: Fits(m.val, room)
  }

  /** Every container but the last waits for a child, and the finished children leave room for their depth. */
  predicate Sound(path: seq<Open>) {
    path == [] ||
    var k := |path| - 1;
    Ready(path[..k]) && Sound(path[..k]) && OpenFits(path[k], MAX_DEPTH - |path|)
  }

  /** The stream has written what its calls describe, and its frames count it. */
  predicate Matches(s: State, p: Progress) {
    && !s.err
    && 1 <= |s.stack| <= MAX_DEPTH
    && s.text == Shown(p)
    && (p.Nothing? || |s.text| < s.size)
    && match p
       case Nothing => s.stack == NEW.stack
       case Inside(path) => path != [] && Sound(path) && s.stack == Frames(path)
       case Done(t) => Fits(t, MAX_DEPTH) && |s.stack| == 1 && Finished(s.stack[0])
  }

  predicate Finished(f: Frame) { f.kind != Undefined && !f.hasKey && f.hasEnd }

  /** A block big enough for n characters, however the buffer grew. */
  function Need(n: nat): nat { FIRST_SIZE + 2 * (n + 1) }

  predicate Shallow(p: Progress) { p.Inside? ==> |p.path| <= MAX_DEPTH }

  /**
   * A call succeeds only if it has a meaning, and leaves the stream in step with it. It fails, for good, only if it
   * has none, if it nests too deep, or if memory runs out.
   */
  predicate InStep(q: Option<Progress>, limit: nat, r: (State, bool)) {
    if r.1 then q.Some? && Matches(r.0, q.value)
    else r.0.err && (q.Some? && Shallow(q.value) ==> limit < Need(|Shown(q.value)|))
  }

  lemma CatGives(s: State, w: string, limit: nat)
    ensures var (t, ok) := Cat(s, w, limit);
      if ok then t.text == s.text + w && t.err == s.err && |t.text| < t.size
      else t.err && limit < Need(|s.text| + |w|)
  {}

  function Joined(ws: seq<string>): string { if ws == [] then "" else ws[0] + Joined(ws[1..]) }

  lemma {:induction false} CatAllGives(s: State, ws: seq<string>, limit: nat)
    requires ws != []
    ensures var (t, ok) := CatAll(s, ws, limit);
      t.stack == s.stack &&
      if ok then t.text == s.text + Joined(ws) && t.err == s.err && |t.text| < t.size
      else t.err && limit < Need(|s.text| + |Joined(ws)|)
    decreases |ws|
  {
    hide Cat;
    CatGives(s, ws[0], limit);
    var (t, ok) := Cat(s, ws[0], limit);
    if ok && |ws| > 1 {
      CatAllGives(t, ws[1..], limit);
      assert s.text + ws[0] + Joined(ws[1..]) == s.text + Joined(ws);
    }
  }

  lemma JoinedQuoted(w: string)
    ensures Joined(["\"", w, "\""]) == Quoted(w)
    ensures Joined(["\"", w, "\"", ":"]) == Quoted(w) + ":"
  {
    JoinedHead("\"", [w, "\""]);
    JoinedHead(w, ["\""]);
    JoinedHead("\"", [w, "\"", ":"]);
    JoinedHead(w, ["\"", ":"]);
    JoinedHead("\"", [":"]);
    JoinedHead(":", []);
    JoinedHead("\"", []);
    assert "\"" + (w + ("\"" + ":")) == Quoted(w) + ":";
  }

  lemma JoinedHead(w: string, ws: seq<string>)
    ensures Joined([w] + ws) == w + Joined(ws)
    ensures Joined([]) == ""
  {
    assert ([w] + ws)[1..] == ws;
  }

  lemma EmitGives(s: State, kind: Kind, w: string, limit: nat)
    ensures var (t, ok) := Emit(s, kind, w, limit); var x := if kind == String then Quoted(w) else w;
      t.stack == s.stack &&
      if ok then t.text == s.text + x && t.err == s.err && |t.text| < t.size
      else t.err && limit < Need(|s.text| + |x|)
  {
    hide Cat, CatAll;
    if kind == String {
      CatAllGives(s, ["\"", w, "\""], limit);
      JoinedQuoted(w);
    } else {
      CatGives(s, w, limit);
    }
  }

  // ---------------------------------------------------------------- values

  lemma FrameWithChild(items: seq<Json>, members: seq<Member>, x: string, m: Member, t: Json)
    ensures OuterFrame(InArray(items)) == InnerFrame(InArray(items + [t]))
    ensures OuterFrame(InObject(members, Some(x))) == InnerFrame(InObject(members + [m], None))
  {}

  lemma OuterInner(path: seq<Open>, t: Json)
    requires path != [] && Put(path, t).Some?
    ensures Frames(Put(path, t).value.path) == Outer(path)
  {
    hide OuterFrame, InnerFrame;
    var k := |path| - 1;
    assert Put(path, t).value.path[..k] == path[..k];
    match path[k]
    case InArray(items) => FrameWithChild(items, [], "", Member("", t), t);
    case InObject(members, key) => FrameWithChild([], members, key.value, Member(key.value, t), t);
  }

  lemma OuterOpen(path: seq<Open>, o: Open)
    ensures Frames(path + [o]) == Outer(path) + [InnerFrame(o)]
    ensures Shown(Inside(path + [o])) == Around(path) + Begun(o)
  {
    assert (path + [o])[..|path|] == path;
  }

  /** The frames and the text with a child of the innermost container about to be written. */
  predicate Placed(s: State, path: seq<Open>) {
    !s.err && s.stack == Outer(path) && s.text == Around(path)
  }

  lemma OuterLast(path: seq<Open>)
    requires path != []
    ensures Outer(path) == Frames(path)[|path| - 1 := OuterFrame(path[|path| - 1])]
    ensures Around(path) == Shown(Inside(path)) + Before(path[|path| - 1])
    ensures Frames(path)[|path| - 1] == InnerFrame(path[|path| - 1])
  {
    hide OuterFrame, InnerFrame, Begun, Before;
  }

  lemma PlaceTop(s: State, o: Open, limit: nat)
    requires s.stack != [] && Top(s) == InnerFrame(o) && !s.err
    ensures var (t, ok) := Place(s, limit); var ready := o.InArray? || o.key.Some?;
      if ok then ready && !t.err && t.stack == s.stack[|s.stack| - 1 := OuterFrame(o)] && t.text == s.text + Before(o)
      else t.err && (ready ==> limit < Need(|s.text| + |Before(o)|))
  {
    hide Cat;
    CatGives(s, ",", limit);
  }

  lemma PlaceGives(s: State, path: seq<Open>, limit: nat)
    requires Matches(s, Inside(path))
    ensures var (t, ok) := Place(s, limit);
      if ok then Ready(path) && Placed(t, path) else t.err && (Ready(path) ==> limit < Need(|Around(path)|))
  {
    hide Place, Cat, Begun, Before, Frames, Outer, InnerFrame, OuterFrame, Around, Shown, Sound;
    OuterLast(path);
    PlaceTop(s, path[|path| - 1], limit);
  }

  /** A finished value takes its place in a sound path. */
  lemma PutSound(path: seq<Open>, t: Json)
    requires Sound(path) && Put(path, t).Some? && Fits(t, MAX_DEPTH - |path|)
    ensures match Put(path, t).value
      case Inside(q) => path != [] && Sound(q) && |q| == |path| && Frames(q) == Outer(path)
      case Done(u) => path == [] && u == t
      case Nothing => false
  {
    hide Outer, Frames, Fits;
    if path != [] {
      OuterInner(path, t);
      assert Put(path, t).value.path[..|path| - 1] == path[..|path| - 1];
    }
  }

  ghost predicate IsLeaf(t: Json, kind: Kind, w: string) {
    (t.Str? && kind == String && w == Cut(t.text)) || (t.Prim? && kind == Primitive && w == Cut(t.text))
  }

  lemma LeafInside(s: State, path: seq<Open>, t: Json, kind: Kind, w: string, limit: nat)
    requires Matches(s, Inside(path)) && IsLeaf(t, kind, w)
    ensures InStep(Put(path, t), limit, Val(s, kind, w, limit))
  {
    hide Place, Emit, Begun, Before, Frames, Outer, InnerFrame, OuterFrame, Around, Shown, Sound, Put, Ready,
      Cut, Quoted;
    OuterLast(path);
    TopKind(path[|path| - 1]);
    PlaceGives(s, path, limit);
    ReadyPut(path, t);
    var (u, ok) := Place(s, limit);
    if ok {
      EmitGives(u, kind, w, limit);
      PutSound(path, t);
    }
    if Put(path, t).Some? { PutShown(path, t); }
  }

  lemma ReadyPut(path: seq<Open>, t: Json)
    ensures Put(path, t).Some? <==> Ready(path)
  {}

  lemma TopKind(o: Open)
    ensures InnerFrame(o).kind != Undefined
  {}

  ghost predicate IsOpening(o: Open, kind: Kind, w: string) {
    (o == InArray([]) && kind == Array && w == "[") || (o == InObject([], None) && kind == Object && w == "{")
  }

  lemma Opening(o: Open, kind: Kind, w: string, room: int)
    requires IsOpening(o, kind, w)
    ensures InnerFrame(o) == Frame(kind, false, false, 0) && Begun(o) == w && OpenFits(o, room)
  {}

  lemma SoundOpen(path: seq<Open>, o: Open)
    requires Sound(path) && Ready(path) && OpenFits(o, MAX_DEPTH - |path| - 1)
    ensures Sound(path + [o])
  {
    hide Ready;
    assert (path + [o])[..|path|] == path;
  }

  lemma ContainerInside(s: State, path: seq<Open>, o: Open, kind: Kind, w: string, limit: nat)
    requires Matches(s, Inside(path)) && IsOpening(o, kind, w)
    ensures InStep(if Ready(path) then Some(Inside(path + [o])) else None, limit, Val(s, kind, w, limit))
  {
    hide Place, Emit, Begun, Before, Frames, Outer, InnerFrame, OuterFrame, Around, Shown, Sound, Ready, OpenFits;
    OuterLast(path);
    TopKind(path[|path| - 1]);
    PlaceGives(s, path, limit);
    Opening(o, kind, w, MAX_DEPTH - |path| - 1);
    OuterOpen(path, o);
    var (u, ok) := Place(s, limit);
    if ok && |path| < MAX_DEPTH {
      EmitGives(u.(stack := u.stack + [Frame(kind, false, false, 0)]), kind, w, limit);
      SoundOpen(path, o);
    }
  }

  lemma LeafFirst(s: State, t: Json, kind: Kind, w: string, limit: nat)
    requires Matches(s, Nothing) && IsLeaf(t, kind, w)
    ensures InStep(Put([], t), limit, Val(s, kind, w, limit))
  {
    hide Emit, Cut;
    EmitGives(SetTop(s, Frame(kind, false, true, 0)), kind, w, limit);
  }

  lemma ContainerFirst(s: State, o: Open, kind: Kind, w: string, limit: nat)
    requires Matches(s, Nothing) && IsOpening(o, kind, w)
    ensures InStep(Some(Inside([o])), limit, Val(s, kind, w, limit))
  {
    hide Emit, Begun, InnerFrame, Sound, Frames, Around;
    var f := Frame(kind, false, false, 0);
    EmitGives(SetTop(s, f), kind, w, limit);
    Opening(o, kind, w, MAX_DEPTH - 1);
    OuterOpen([], o);
    Empties();
    SoundOpen([], o);
    assert [] + [o] == [o] && [] + [f] == [f];
  }

  lemma Empties()
    ensures Around([]) == "" && Sound([]) && Outer([]) == []
  {}

  // ---------------------------------------------------------------- keys, ends and the buffer

  lemma KeyTop(s: State, o: Open, x: string, limit: nat)
    requires s.stack != [] && Top(s) == InnerFrame(o) && !s.err
    ensures var (t, ok) := KeyCall(s, Cut(x), limit); var can := o.InObject? && o.key.None?;
      if ok then can && var p := InObject(o.members, Some(x));
        !t.err && |t.text| < t.size && t.stack == s.stack[|s.stack| - 1 := InnerFrame(p)] &&
        t.text == s.text + Comma(|o.members|) + Quoted(Cut(x)) + ":"
      else t.err && (can ==> limit < Need(|s.text| + |Comma(|o.members|)| + |Quoted(Cut(x))| + 1))
  {
    hide Cat, CatAll, Cut;
    var f := Top(s);
    if f.kind == Object && !f.hasKey && !f.hasEnd {
      var s1 := SetTop(s, f.(hasKey := true));
      CatGives(s1, ",", limit);
      var t := if f.count != 0 then Cat(s1, ",", limit).0 else s1;
      CatAllGives(SetTop(t, f.(hasKey := true, count := Next(f.count))), ["\"", Cut(x), "\"", ":"], limit);
      JoinedQuoted(Cut(x));
    }
  }

  lemma BegunKey(members: seq<Member>, x: string)
    ensures Begun(InObject(members, Some(x)))
         == Begun(InObject(members, None)) + Comma(|members|) + Quoted(Cut(x)) + ":"
  {
    hide WrittenMembers, Quoted, Comma, Cut;
  }

  lemma SoundKey(path: seq<Open>, x: string)
    requires path != [] && Sound(path) && AfterKey(path, x).Some?
    ensures Sound(AfterKey(path, x).value.path)
  {
    assert AfterKey(path, x).value.path[..|path| - 1] == path[..|path| - 1];
  }

  lemma KeyInside(s: State, path: seq<Open>, x: string, limit: nat)
    requires Matches(s, Inside(path))
    ensures InStep(AfterKey(path, x), limit, KeyCall(s, Cut(x), limit))
  {
    hide KeyCall, Begun, Before, Outer, InnerFrame, OuterFrame, Around, Sound, Cut, Quoted, Comma;
    var k := |path| - 1;
    var o := path[k];
    KeyTop(s, o, x, limit);
    if o.InObject? && o.key.None? {
      BegunKey(o.members, x);
      SoundKey(path, x);
      assert (path[..k] + [InObject(o.members, Some(x))])[..k] == path[..k];
    }
  }

  lemma EndTop(s: State, o: Open, limit: nat)
    requires s.stack != [] && Top(s) == InnerFrame(o) && !s.err
    ensures var (t, ok) := EndCall(s, limit); var can := o.InArray? || o.key.None?;
      if ok then can && !t.err && |t.text| < t.size && t.stack == Leave(s).stack &&
        t.text == s.text + if o.InArray? then "]" else "}"
      else t.err && (can ==> limit < Need(|s.text| + 1))
  {
    hide Cat;
    CatGives(s, "]", limit);
    CatGives(s, "}", limit);
  }

  lemma EndedFits(o: Open, room: int)
    requires OpenFits(o, room - 1) && room >= 1 && (o.InArray? || o.key.None?)
    ensures Fits(Ended(o), room)
    ensures Written(Ended(o)) == Begun(o) + if o.InArray? then "]" else "}"
  {
    hide WrittenItems, WrittenMembers;
  }

  lemma OuterPut(path: seq<Open>, t: Json)
    requires path != [] && Sound(path)
    ensures Ready(path[..|path| - 1]) && Sound(path[..|path| - 1]) && OpenFits(path[|path| - 1], MAX_DEPTH - |path|)
    ensures Put(path[..|path| - 1], t).Some?
  {
    hide OpenFits;
  }

  lemma LeaveFrames(s: State, path: seq<Open>)
    requires path != [] && s.stack == Frames(path)
    ensures |path| > 1 ==> Leave(s).stack == Outer(path[..|path| - 1])
    ensures |path| == 1 ==> |Leave(s).stack| == 1 && Leave(s).stack[0] == InnerFrame(path[0]).(hasEnd := true)
  {
    hide Outer, InnerFrame;
  }

  lemma InnerHasKey(o: Open)
    ensures InnerFrame(o).hasKey <==> o.InObject? && o.key.Some?
    ensures InnerFrame(o).kind != Undefined && !InnerFrame(o).hasEnd
  {}

  lemma EndInside(s: State, path: seq<Open>, limit: nat)
    requires Matches(s, Inside(path))
    ensures InStep(AfterEnd(path), limit, EndCall(s, limit))
  {
    hide EndCall, Leave, Begun, Before, Frames, Outer, InnerFrame, OuterFrame, Around, Sound, Put, OpenFits,
      Fits, Ready;
    hide Written;
    var k := |path| - 1;
    var o := path[k];
    OuterLast(path);
    EndTop(s, o, limit);
    InnerHasKey(o);
    if o.InArray? || o.key.None? {
      OuterPut(path, Ended(o));
      EndedFits(o, MAX_DEPTH - k);
      PutShown(path[..k], Ended(o));
      PutSound(path[..k], Ended(o));
      LeaveFrames(s, path);
    }
  }

  lemma BufferStep(s: State, p: Progress, limit: nat)
    requires Matches(s, p)
    ensures InStep(After(p, Buffer), limit, Step(s, Buffer, limit))
  {
    hide Begun, Outer, Around, Sound, InnerFrame, Written, Fits;
    if p.Inside? {
      OuterLast(p.path);
      InnerHasKey(p.path[|p.path| - 1]);
    }
  }

  // ---------------------------------------------------------------- one call, any call

  lemma FinishedRefuses(s: State, t: Json, kind: Kind, w: string, limit: nat)
    requires Matches(s, Done(t))
    ensures Val(s, kind, w, limit) == Fail(s)
  {
    hide Fits, Enter, Emit;
  }

  lemma ValueStep(s: State, p: Progress, t: Json, kind: Kind, w: string, limit: nat)
    requires Matches(s, p) && IsLeaf(t, kind, w)
    ensures InStep(if p.Done? then None else Put(PathOf(p), t), limit, Val(s, kind, w, limit))
  {
    hide Begun, Outer, Around, Sound, InnerFrame, OuterFrame, Fits, Cut, Emit, Place, Put;
    match p
    case Nothing => LeafFirst(s, t, kind, w, limit);
    case Inside(path) => LeafInside(s, path, t, kind, w, limit);
    case Done(u) => FinishedRefuses(s, u, kind, w, limit);
  }

  lemma OpeningStep(s: State, p: Progress, o: Open, kind: Kind, w: string, limit: nat)
    requires Matches(s, p) && IsOpening(o, kind, w)
    ensures InStep(if p.Done? || !Ready(PathOf(p)) then None else Some(Inside(PathOf(p) + [o])), limit,
                   Val(s, kind, w, limit))
  {
    hide Begun, Outer, Around, Sound, InnerFrame, OuterFrame, Fits, Emit, Place;
    match p
    case Nothing =>
      ContainerFirst(s, o, kind, w, limit);
      assert [] + [o] == [o];
    case Inside(path) => ContainerInside(s, path, o, kind, w, limit);
    case Done(u) => FinishedRefuses(s, u, kind, w, limit);
  }

  lemma RefusedKey(s: State, p: Progress, w: string, limit: nat)
    requires Matches(s, p) && !p.Inside?
    ensures KeyCall(s, w, limit) == Fail(s) && EndCall(s, limit) == Fail(s)
  {}

  /** One call, whatever it is, keeps the stream in step with what its calls describe. */
  lemma StepMatches(s: State, p: Progress, c: Call, limit: nat)
    requires Matches(s, p)
    ensures InStep(After(p, c), limit, Step(s, c, limit))
  {
    hide Val, KeyCall, EndCall, AfterKey, AfterEnd, Matches, Cut;
    match c
    case BeginObject => OpeningStep(s, p, InObject([], None), Object, "{", limit);
    case BeginArray => OpeningStep(s, p, InArray([]), Array, "[", limit);
    case Text(x) => ValueStep(s, p, Str(x), String, Cut(x), limit);
    case Token(x) => ValueStep(s, p, Prim(x), Primitive, Cut(x), limit);
    case Buffer => BufferStep(s, p, limit);
    case Key(x) => if p.Inside? { KeyInside(s, p.path, x, limit); } else { RefusedKey(s, p, Cut(x), limit); NoPath(x); }
    case End => if p.Inside? { EndInside(s, p.path, limit); } else { RefusedKey(s, p, "", limit); NoPath(""); }
  }

  lemma NoPath(x: string)
    ensures AfterKey([], x) == None && AfterEnd([]) == None
  {}

  // ---------------------------------------------------------------- whole runs

  /** The calls of a run that write something. */
  function Writes(es: seq<Event>): seq<Call> {
    if es == [] then []
    else
      var k := |es| - 1;
      Writes(es[..k]) + if es[k].call == Buffer then [] else [es[k].call]
  }

  /** A run without an error is in step with the calls it made. */
  lemma {:induction false} RunMatches(es: seq<Event>) returns (p: Progress)
    requires !Run(es).err
    ensures Matches(Run(es), p) && Said(p) == Writes(es)
    decreases |es|
  {
    hide Matches, After, Said, Val, KeyCall, EndCall;
    if es == [] {
      p := Nothing;
      NewMatches();
    } else {
      var k := |es| - 1;
      var q := RunMatches(es[..k]);
      StepMatches(Run(es[..k]), q, es[k].call, es[k].limit);
      p := After(q, es[k].call).value;
      AfterSaid(q, es[k].call);
    }
  }

  lemma NewMatches()
    ensures Matches(NEW, Nothing) && Said(Nothing) == []
  {}

  // ---------------------------------------------------------------- every tree's calls describe the tree

  function AfterAll(p: Option<Progress>, cs: seq<Call>): Option<Progress>
    decreases |cs|
  {
    if cs == [] || p.None? then p else AfterAll(After(p.value, cs[0]), cs[1..])
  }

  lemma {:induction false} AfterAppend(p: Option<Progress>, a: seq<Call>, b: seq<Call>)
    ensures AfterAll(p, a + b) == AfterAll(AfterAll(p, a), b)
    decreases |a|
  {
    hide After;
    if a == [] {
      assert a + b == b;
    } else if p.Some? {
      assert (a + b)[1..] == a[1..] + b;
      AfterAppend(After(p.value, a[0]), a[1..], b);
    }
  }

  lemma AfterOne(p: Progress, c: Call)
    ensures AfterAll(Some(p), [c]) == After(p, c)
  {
    hide After;
    assert [c][1..] == [];
  }

  function Standing(path: seq<Open>): Progress { if path == [] then Nothing else Inside(path) }

  /** Wherever a value may stand, the calls of a tree put that tree there. */
  lemma {:induction false} CallsDescribe(path: seq<Open>, t: Json)
    requires Ready(path)
    ensures AfterAll(Some(Standing(path)), Calls(t)) == Put(path, t)
    decreases t, 1
  {
    hide CallsItems, CallsMembers, Put;
    match t
    case Prim(x) => AfterOne(Standing(path), Token(x));
    case Str(x) => AfterOne(Standing(path), Text(x));
    case Arr(items) =>
      ItemsDescribe(path, items);
      ArrayMoves(path, items, t);
      Closing(path, t, BeginArray, CallsItems(items), InArray([]), InArray(items));
    case Obj(members) =>
      MembersDescribe(path, members);
      ObjectMoves(path, members, "", t);
      Closing(path, t, BeginObject, CallsMembers(members), InObject([], None), InObject(members, None));
  }

  lemma Closing(path: seq<Open>, t: Json, c: Call, middle: seq<Call>, o: Open, full: Open)
    requires After(Standing(path), c) == Some(Inside(path + [o]))
    requires AfterAll(Some(Inside(path + [o])), middle) == Some(Inside(path + [full]))
    requires After(Inside(path + [full]), End) == Put(path, t)
    ensures AfterAll(Some(Standing(path)), [c] + middle + [End]) == Put(path, t)
  {
    hide After, Put;
    AfterOne(Standing(path), c);
    AfterOne(Inside(path + [full]), End);
    AfterAppend(Some(Standing(path)), [c] + middle, [End]);
    AfterAppend(Some(Standing(path)), [c], middle);
  }

  lemma ArrayMoves(path: seq<Open>, items: seq<Json>, t: Json)
    ensures Put(path + [InArray(items)], t) == Some(Inside(path + [InArray(items + [t])]))
    ensures After(Inside(path + [InArray(items)]), End) == Put(path, Arr(items))
  {
    hide Put;
    assert (path + [InArray(items)])[..|path|] == path;
    PutLast(path, InArray(items), t);
  }

  lemma ObjectMoves(path: seq<Open>, members: seq<Member>, x: string, t: Json)
    ensures After(Inside(path + [InObject(members, None)]), Key(x)) == Some(Inside(path + [InObject(members, Some(x))]))
    ensures Put(path + [InObject(members, Some(x))], t) ==
            Some(Inside(path + [InObject(members + [Member(x, t)], None)]))
    ensures After(Inside(path + [InObject(members, None)]), End) == Put(path, Obj(members))
  {
    hide Put;
    assert (path + [InObject(members, None)])[..|path|] == path;
    PutLast(path, InObject(members, Some(x)), t);
  }

  lemma PutLast(path: seq<Open>, o: Open, t: Json)
    ensures Put(path + [o], t)
         == match o
            case InArray(items) => Some(Inside(path + [InArray(items + [t])]))
            case InObject(members, Some(x)) => Some(Inside(path + [InObject(members + [Member(x, t)], None)]))
            case InObject(_, None) => None
  {
    assert (path + [o])[..|path|] == path;
  }

  lemma {:induction false} ItemsDescribe(path: seq<Open>, items: seq<Json>)
    ensures AfterAll(Some(Inside(path + [InArray([])])), CallsItems(items)) == Some(Inside(path + [InArray(items)]))
    decreases items, 0
  {
    hide Put, After, Calls;
    if items != [] {
      var k := |items| - 1;
      var q := path + [InArray(items[..k])];
      ItemsDescribe(path, items[..k]);
      CallsDescribe(q, items[k]);
      AfterAppend(Some(Inside(path + [InArray([])])), CallsItems(items[..k]), Calls(items[k]));
      ArrayMoves(path, items[..k], items[k]);
      assert items[..k] + [items[k]] == items;
    }
  }

  lemma {:induction false} MembersDescribe(path: seq<Open>, members: seq<Member>)
    ensures AfterAll(Some(Inside(path + [InObject([], None)])), CallsMembers(members))
         == Some(Inside(path + [InObject(members, None)]))
    decreases members, 0
  {
    hide Put, After, Calls;
    if members != [] {
      var k := |members| - 1;
      var m := members[k];
      var p := Some(Inside(path + [InObject([], None)]));
      var q := path + [InObject(members[..k], Some(m.key))];
      MembersDescribe(path, members[..k]);
      CallsDescribe(q, m.val);
      AfterAppend(p, CallsMembers(members[..k]) + [Key(m.key)], Calls(m.val));
      AfterAppend(p, CallsMembers(members[..k]), [Key(m.key)]);
      AfterOne(Inside(path + [InObject(members[..k], None)]), Key(m.key));
      ObjectMoves(path, members[..k], m.key, m.val);
      assert members[..k] + [m] == members && Member(m.key, m.val) == m;
    }
  }

  // ---------------------------------------------------------------- progress only adds

  lemma OpenGrows(path: seq<Open>, o: Open)
    ensures |Shown(Standing(path))| <= |Around(path)| && |Around(path)| <= |Shown(Inside(path + [o]))|
  {
    hide Begun, Before;
    OuterOpen(path, o);
    if path != [] { OuterLast(path); }
  }

  /** No call takes text back. */
  lemma ShownGrows(p: Progress, c: Call)
    requires After(p, c).Some?
    ensures |Shown(p)| <= |Shown(After(p, c).value)|
  {
    hide Begun, Before, Around, Written;
    if !p.Done? {
      var path := PathOf(p);
      OpenGrows(path, InArray([]));
      OpenGrows(path, InObject([], None));
      match c
      case BeginArray =>
      case BeginObject =>
      case Text(x) => PutShown(path, Str(x));
      case Token(x) => PutShown(path, Prim(x));
      case Buffer =>
      case Key(x) => KeyGrows(path, x);
      case End => EndGrows(path);
    }
  }

  lemma KeyGrows(path: seq<Open>, x: string)
    requires AfterKey(path, x).Some?
    ensures |Shown(Inside(path))| <= |Shown(AfterKey(path, x).value)|
  {
    hide Begun, Around;
    var k := |path| - 1;
    BegunKey(path[k].members, x);
    assert (path[..k] + [InObject(path[k].members, Some(x))])[..k] == path[..k];
  }

  lemma EndGrows(path: seq<Open>)
    requires AfterEnd(path).Some?
    ensures |Shown(Inside(path))| <= |Shown(AfterEnd(path).value)|
  {
    hide Around, WrittenItems, WrittenMembers;
    var k := |path| - 1;
    PutShown(path[..k], Ended(path[k]));
  }

  /** The path and everything finished on it nest no deeper than the stream's frames go. */
  predicate Nests(path: seq<Open>) {
    path == [] ||
    var k := |path| - 1;
    |path| <= MAX_DEPTH && Nests(path[..k]) && OpenFits(path[k], MAX_DEPTH - |path|)
  }

  predicate NestsAll(p: Progress) {
    match p
    case Nothing => true
    case Inside(path) => Nests(path)
    case Done(t) => Fits(t, MAX_DEPTH)
  }

  lemma NestsPut(path: seq<Open>, t: Json)
    requires Put(path, t).Some? && NestsAll(Put(path, t).value)
    ensures Nests(path) && Fits(t, MAX_DEPTH - |path|)
  {
    hide Fits;
    if path != [] {
      var k := |path| - 1;
      var o := Put(path, t).value.path[k];
      assert Put(path, t).value.path[..k] == path[..k];
      if o.InArray? {
        assert o.items == path[k].items + [t];
      } else {
        assert o.members == path[k].members + [Member(path[k].key.value, t)];
      }
    }
  }

  lemma NestsOpen(path: seq<Open>, o: Open)
    requires Nests(path + [o])
    ensures Nests(path)
  {
    hide OpenFits;
    assert (path + [o])[..|path|] == path;
  }

  lemma NestsEnd(path: seq<Open>)
    requires AfterEnd(path).Some? && NestsAll(AfterEnd(path).value)
    ensures Nests(path)
  {
    hide Fits, Put, OpenFits;
    NestsPut(path[..|path| - 1], Ended(path[|path| - 1]));
    EndedRoom(path[|path| - 1], MAX_DEPTH - |path| + 1);
  }

  /** What ends within the depth was within it all along. */
  lemma NestsBack(p: Progress, c: Call)
    requires After(p, c).Some? && NestsAll(After(p, c).value)
    ensures NestsAll(p)
  {
    hide Fits, Put, OpenFits, Nests, AfterKey, AfterEnd;
    if p.Inside? {
      var path := PathOf(p);
      match c
      case BeginArray => NestsOpen(path, InArray([]));
      case BeginObject => NestsOpen(path, InObject([], None));
      case Text(x) => NestsPut(path, Str(x));
      case Token(x) => NestsPut(path, Prim(x));
      case Buffer =>
      case Key(x) => NestsKey(path, x);
      case End => NestsEnd(path);
    }
  }

  lemma EndedRoom(o: Open, room: int)
    requires Fits(Ended(o), room)
    ensures room >= 1 && OpenFits(o, room - 1)
  {}

  lemma NestsKey(path: seq<Open>, x: string)
    requires AfterKey(path, x).Some? && NestsAll(AfterKey(path, x).value)
    ensures Nests(path)
  {
    assert AfterKey(path, x).value.path[..|path| - 1] == path[..|path| - 1];
  }

  // ---------------------------------------------------------------- main results

  function CallsOf(es: seq<Event>): seq<Call> { if es == [] then [] else CallsOf(es[..|es| - 1]) + [es[|es| - 1].call] }

  predicate Granted(es: seq<Event>, n: nat) { forall e | e in es :: e.limit >= Need(n) }

  /** Calls that lead to a progress within the depth all succeed when memory does. */
  lemma {:induction false} RunSucceeds(es: seq<Event>, q: Progress, n: nat)
    requires AfterAll(Some(Nothing), CallsOf(es)) == Some(q) && NestsAll(q)
    requires |Shown(q)| <= n && Granted(es, n)
    ensures Matches(Run(es), q)
    decreases |es|
  {
    hide Matches, After, Shown, NestsAll, Val, KeyCall, EndCall;
    if es == [] {
      NewMatches();
    } else {
      var k := |es| - 1;
      var e := es[k];
      var p := AfterAll(Some(Nothing), CallsOf(es[..k]));
      AfterAppend(Some(Nothing), CallsOf(es[..k]), [e.call]);
      AfterOne(p.value, e.call);
      ShownGrows(p.value, e.call);
      NestsBack(p.value, e.call);
      assert e in es && forall x | x in es[..k] :: x in es;
      RunSucceeds(es[..k], p.value, n);
      StepMatches(Run(es[..k]), p.value, e.call, e.limit);
      NestsShallow(q);
    }
  }

  lemma NestsShallow(p: Progress)
    requires NestsAll(p)
    ensures Shallow(p)
  {}

  /** The calls of a tree describe no other tree. */
  lemma CallsDiffer(t: Json, u: Json)
    requires Calls(t) == Calls(u)
    ensures t == u
  {
    hide Calls;
    CallsDescribe([], t);
    CallsDescribe([], u);
  }

  /**
   * Whenever the buffer is handed out, the calls so far describe one tree, and the buffer holds that tree's text. The
   * text reads back as the tree exactly when the tree is plain and narrow.
   */
  lemma BufferHoldsTheTree(es: seq<Event>) returns (t: Json)
    requires Fetch(Run(es)).Some?
    ensures Writes(es) == Calls(t) && Fits(t, MAX_DEPTH) && Depth(t) <= 32
    ensures Fetch(Run(es)) == Some(Written(t))
    ensures Read(Fetch(Run(es)).value) == Some(t) <==> Plain(t) && Narrow(t)
  {
    hide Calls, Written, Read, Plain, Narrow, Begun, Around, Sound, Outer, Fits, Depth;
    var p := RunMatches(es);
    BufferStep(Run(es), p, 0);
    t := p.value;
    FitsDepth(t, MAX_DEPTH);
    RoundTrip(t);
  }

  lemma {:induction false} OnlyWrites(es: seq<Event>)
    requires forall e | e in es :: e.call != Buffer
    ensures CallsOf(es) == Writes(es)
    decreases |es|
  {
    if es != [] {
      var k := |es| - 1;
      assert es[k] in es && forall x | x in es[..k] :: x in es;
      OnlyWrites(es[..k]);
    }
  }

  lemma {:induction false} NoQuery(t: Json, c: Call)
    requires c in Calls(t)
    ensures c != Buffer
    decreases t, 1
  {
    match t
    case Prim(_) =>
    case Str(_) =>
    case Arr(items) => if c in CallsItems(items) { NoQueryItems(items, c); }
    case Obj(members) => if c in CallsMembers(members) { NoQueryMembers(members, c); }
  }

  lemma {:induction false} NoQueryItems(items: seq<Json>, c: Call)
    requires c in CallsItems(items)
    ensures c != Buffer
    decreases items, 0
  {
    var k := |items| - 1;
    if c in Calls(items[k]) { NoQuery(items[k], c); } else { NoQueryItems(items[..k], c); }
  }

  lemma {:induction false} NoQueryMembers(members: seq<Member>, c: Call)
    requires c in CallsMembers(members)
    ensures c != Buffer
    decreases members, 0
  {
    var k := |members| - 1;
    if c in Calls(members[k].val) {
      NoQuery(members[k].val, c);
    } else if c != Key(members[k].key) {
      NoQueryMembers(members[..k], c);
    }
  }

  lemma {:induction false} CallsOfAll(es: seq<Event>)
    ensures forall e | e in es :: e.call in CallsOf(es)
    decreases |es|
  {
    if es != [] { CallsOfAll(es[..|es| - 1]); }
  }

  /** How many containers are nested in one another. */
  function Depth(t: Json): (d: nat)
    decreases t, 1
  {
    match t
    case Prim(_) => 0
    case Str(_) => 0
    case Arr(items) => 1 + DepthItems(items)
    case Obj(members) => 1 + DepthMembers(members)
  }

  function DepthItems(items: seq<Json>): nat
    decreases items, 0
  {
    if items == [] then 0 else Larger(DepthItems(items[..|items| - 1]), Depth(items[|items| - 1]))
  }

  function DepthMembers(members: seq<Member>): nat
    decreases members, 0
  {
    if members == [] then 0 else Larger(DepthMembers(members[..|members| - 1]), Depth(members[|members| - 1].val))
  }

  function Larger(a: nat, b: nat): nat { if a < b then b else a }

  lemma {:induction false} FitsDepth(t: Json, room: int)
    requires room >= 0
    ensures Fits(t, room) <==> Depth(t) <= room
    decreases t, 1
  {
    match t
    case Prim(_) =>
    case Str(_) =>
    case Arr(items) =>
      if room >= 1 {
        FitsDepthItems(items, room - 1);
      }
    case Obj(members) =>
      if room >= 1 {
        FitsDepthMembers(members, room - 1);
      }
  }

  lemma {:induction false} FitsDepthItems(items: seq<Json>, room: int)
    requires room >= 0
    ensures (forall x | x in items :: Fits(x, room)) <==> DepthItems(items) <= room
    decreases items, 0
  {
    if items != [] {
      var k := |items| - 1;
      assert items == items[..k] + [items[k]];
      FitsDepthItems(items[..k], room);
      FitsDepth(items[k], room);
    }
  }

  lemma {:induction false} FitsDepthMembers(members: seq<Member>, room: int)
    requires room >= 0
    ensures (forall m | m in members :: Fits(m.val, room)) <==> DepthMembers(members) <= room
    decreases members, 0
  {
    if members != [] {
      var k := |members| - 1;
      assert members == members[..k] + [members[k]];
      FitsDepthMembers(members[..k], room);
      FitsDepth(members[k].val, room);
    }
  }

  /** With memory to spare, exactly the trees of at most 32 nested containers can be written. */
  lemma TreesThatCanBeWritten(es: seq<Event>, t: Json)
    requires CallsOf(es) == Calls(t) && forall e | e in es :: e.limit >= 256 + 2 * (|Written(t)| + 1)
    ensures Fetch(Run(es)) == if Depth(t) <= 32 then Some(Written(t)) else None
  {
    FitsDepth(t, MAX_DEPTH);
    FittingTreesCanBeWritten(es, t);
    hide Fits, Depth, Written, Fetch, Run, Calls, CallsOf;
  }

  lemma FittingTreesCanBeWritten(es: seq<Event>, t: Json)
    requires CallsOf(es) == Calls(t) && Granted(es, |Written(t)|)
    ensures Fetch(Run(es)) == if Fits(t, MAX_DEPTH) then Some(Written(t)) else None
  {
    hide Calls, Written, Read, Plain, Narrow, After, Granted, CallsOf, Run;
    if Fits(t, MAX_DEPTH) {
      CallsDescribe([], t);
      RunSucceeds(es, Done(t), |Written(t)|);
    } else if Fetch(Run(es)).Some? {
      var u := BufferHoldsTheTree(es);
      CallsOfAll(es);
      forall e | e in es ensures e.call != Buffer { NoQuery(t, e.call); }
      OnlyWrites(es);
      CallsDiffer(t, u);
    }
  }

  /** An error is for good: no later call brings the buffer back. */
  lemma {:induction false} ErrorsStick(es: seq<Event>, more: seq<Event>)
    requires Run(es).err
    ensures Run(es + more).err && Fetch(Run(es + more)) == None
    decreases |more|
  {
    hide Val, KeyCall, EndCall;
    if more == [] {
      assert es + more == es;
    } else {
      ErrorsStick(es, more[..|more| - 1]);
      assert (es + more)[..|es + more| - 1] == es + more[..|more| - 1];
    }
  }

  /** Asking for the buffer before the value is finished is itself such an error. */
  lemma TooEarly(es: seq<Event>, limit: nat)
    requires Fetch(Run(es)) == None
    ensures Run(es + [Event(Buffer, limit)]).err
  {
    hide Val, KeyCall, EndCall, Begun, Around, Sound, Outer;
    assert (es + [Event(Buffer, limit)])[..|es|] == es;
    if !Run(es).err {
      var p := RunMatches(es);
      BufferStep(Run(es), p, limit);
    }
  }
}
