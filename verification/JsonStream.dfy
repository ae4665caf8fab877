/** The JSON stream of jsmn/cc_jsmnStream.c as it stands in memory. */
module JsonStream {
  import opened Json
  import opened JsonStreamState

  lemma CatAllHead(s: State, w: string, ws: seq<string>, limit: nat)
    ensures CatAll(s, [w] + ws, limit)
         == (var (t, ok) := Cat(s, w, limit); if ok then CatAll(t, ws, limit) else (t, false))
  {
    assert ([w] + ws)[1..] == ws;
  }

  lemma RoomFits(size: nat, need: nat)
    ensures need <= Room(size, need)
    ensures size >= need ==> Room(size, need) == size
  {}

  class Stream {
    var len: nat
    var buffer: array?<char>
    var err: bool
    var depth: nat
    const state: array<Frame>

    ghost predicate Valid()
      reads this, state, buffer
    {
      && state.Length == MAX_DEPTH
      && depth < MAX_DEPTH
      && (buffer == null ==> len == 0)
      && (buffer != null ==> len < buffer.Length && buffer[len] == 0 as char)
    }

    ghost function Value(): (s: State)
      requires Valid()
      reads this, state, buffer
      ensures |s.stack| == depth + 1
    {
      var text := if buffer == null then "" else buffer[..len];
      State(text, if buffer == null then 0 else buffer.Length, err, state[..depth + 1])
    }

    constructor ()
      ensures Valid() && Value() == NEW && fresh(state)
    {
      len, buffer, err, depth := 0, null, false, 0;
      state := new Frame[MAX_DEPTH](_ => Frame(Undefined, false, false, 0));
    }

    method Error()
      requires Valid()
      modifies this`err
      ensures Valid() && Value() == old(Value()).(err := true)
    {
      err := true;
    }

    /** A block of the given size that starts with the old one's characters. */
    method Realloc(size: nat) returns (tmp: array<char>)
      requires Valid() && size > len && (buffer != null ==> buffer.Length <= size)
      ensures fresh(tmp) && tmp.Length == size && (buffer != null ==> tmp[..len] == buffer[..len])
    {
      tmp := new char[size];
      if buffer != null {
        var i := 0;
        while i < len
          invariant 0 <= i <= len && tmp[..i] == buffer[..i]
        {
          tmp[i] := buffer[i];
          i := i + 1;
        }
      }
    }

    /** The size of the block that a text of the given length asks for. */
    method Size(need: nat) returns (size: nat)
      requires Valid() && need > 0
      ensures size == Room(if buffer == null then 0 else buffer.Length, need)
    {
      var size1 := if buffer == null then 0 else buffer.Length;
      size := size1;
      if size1 < need {
        if size1 == 0 { size := FIRST_SIZE; }
        while size < need
          invariant size > 0 && Grow(size, need) == Room(size1, need)
          decreases need - size
        {
          size := size * 2;
        }
      }
    }

    /** Makes room for need characters, or reports failure and changes nothing else. */
    method Resize(need: nat, limit: nat) returns (ok: bool)
      requires Valid() && need > len
      modifies this`err, this`buffer
      ensures buffer == old(buffer) || fresh(buffer)
      ensures var size := Room(old(Value()).size, need);
        if old(Value()).size < need && limit < size then !ok && Valid() && Value() == old(Value()).(err := true)
        else ok && buffer != null && buffer.Length == size && buffer[..len] == old(Value()).text && err == old(err)
    {
      var size := Size(need);
      ok := true;
      if buffer == null || buffer.Length < need {
        if limit < size {
          Error();
          ok := false;
        } else {
          buffer := Realloc(size);
        }
      }
    }

    method Append(str: string)
      requires buffer != null && len + |str| < buffer.Length
      modifies this`len, buffer
      ensures len == old(len) + |str| && buffer[len] == 0 as char
      ensures buffer[..len] == old(buffer[..len]) + str
    {
      var lena, lenb := len, |str|;
      var i := 0;
      while i < lenb
        invariant 0 <= i <= lenb && buffer[..lena + i] == old(buffer[..len]) + str[..i]
        modifies buffer
      {
        buffer[lena + i] := str[i];
        i := i + 1;
      }
      buffer[lena + lenb] := 0 as char;
      len := lena + lenb;
    }

    method Cat(str: string, limit: nat) returns (ok: bool)
      requires Valid()
      modifies this`err, this`buffer, this`len, buffer
      ensures Valid() && (buffer == old(buffer) || fresh(buffer))
      ensures (Value(), ok) == JsonStreamState.Cat(old(Value()), str, limit)
    {
      hide Room;
      RoomFits(Value().size, len + |str| + 1);
      ok := Resize(len + |str| + 1, limit);
      if ok { Append(str); }
    }

    method CatQuoted(str: string, limit: nat) returns (ok: bool)
      requires Valid()
      modifies this`err, this`buffer, this`len, buffer
      ensures Valid() && (buffer == old(buffer) || fresh(buffer))
      ensures (Value(), ok) == CatAll(old(Value()), ["\"", str, "\""], limit)
    {
      hide JsonStreamState.Cat;
      ghost var s := Value();
      CatAllHead(s, "\"", [str, "\""], limit);
      ok := Cat("\"", limit);
      if ok {
        CatAllHead(Value(), str, ["\""], limit);
        ok := Cat(str, limit);
        if ok {
          CatAllHead(Value(), "\"", [], limit);
          ok := Cat("\"", limit);
        }
      }
    }

    method SetState(f: Frame)
      requires Valid()
      modifies state
      ensures Valid() && Value() == SetTop(old(Value()), f)
    {
      state[depth] := f;
    }

    /** Makes way for a child of the innermost container. */
    method MakeWay(limit: nat) returns (ok: bool)
      requires Valid()
      modifies this`err, this`buffer, this`len, buffer, state
      ensures Valid() && (buffer == old(buffer) || fresh(buffer)) && depth == old(depth)
      ensures (Value(), ok) == Place(old(Value()), limit)
    {
      hide JsonStreamState.Cat;
      var f := state[depth];
      ok := true;
      if f.kind == Object && f.hasKey && !f.hasEnd {
        SetState(f.(hasKey := false));
      } else if f.kind == Array && !f.hasEnd {
        if f.count != 0 { ok := Cat(",", limit); }
        if ok { SetState(f.(count := Next(f.count))); }
      } else {
        Error();
        ok := false;
      }
    }

    method Push(kind: Kind) returns (ok: bool)
      requires Valid()
      modifies this`err, this`depth, state
      ensures Valid()
      ensures if |old(Value()).stack| >= MAX_DEPTH then !ok && Value() == old(Value()).(err := true)
        else ok && Value() == old(Value()).(stack := old(Value()).stack + [Frame(kind, false, false, 0)])
    {
      if depth + 1 >= MAX_DEPTH {
        Error();
        return false;
      }
      depth := depth + 1;
      state[depth] := Frame(kind, false, false, 0);
      ok := true;
    }

    method Emitted(kind: Kind, str: string, limit: nat) returns (ok: bool)
      requires Valid()
      modifies this`err, this`buffer, this`len, buffer
      ensures Valid() && (buffer == old(buffer) || fresh(buffer))
      ensures (Value(), ok) == Emit(old(Value()), kind, str, limit)
    {
      if kind == String { ok := CatQuoted(str, limit); } else { ok := Cat(str, limit); }
    }

    method Val(kind: Kind, str: string, limit: nat) returns (ok: bool)
      requires Valid()
      modifies this`err, this`buffer, this`len, this`depth, buffer, state
      ensures Valid() && (buffer == old(buffer) || fresh(buffer))
      ensures (Value(), ok) == JsonStreamState.Val(old(Value()), kind, str, limit)
    {
      hide Emit, Place, SetTop, Valid, Value;
      TopIs();
      if state[depth].kind == Undefined {
        SetState(Frame(kind, false, Leaf(kind), 0));
      } else {
        ok := MakeWay(limit);
        if ok && !Leaf(kind) { ok := Push(kind); }
        if !ok { return; }
      }
      ok := Emitted(kind, str, limit);
    }

    lemma TopIs()
      requires Valid()
      ensures depth < state.Length && Value().stack != [] && state[depth] == Top(Value())
    {}

    method BeginObject(limit: nat) returns (ok: bool)
      requires Valid()
      modifies this, buffer, state
      ensures Valid() && (buffer == old(buffer) || fresh(buffer))
      ensures (Value(), ok) == Step(old(Value()), Call.BeginObject, limit)
    {
      ok := Val(Object, "{", limit);
    }

    method BeginArray(limit: nat) returns (ok: bool)
      requires Valid()
      modifies this, buffer, state
      ensures Valid() && (buffer == old(buffer) || fresh(buffer))
      ensures (Value(), ok) == Step(old(Value()), Call.BeginArray, limit)
    {
      ok := Val(Array, "[", limit);
    }

    /** A string; the formatted text is cut to the size of the buffer it is formatted into. */
    method Text(text: string, limit: nat) returns (ok: bool)
      requires Valid()
      modifies this, buffer, state
      ensures Valid() && (buffer == old(buffer) || fresh(buffer))
      ensures (Value(), ok) == Step(old(Value()), Call.Text(text), limit)
    {
      ok := Val(String, Cut(text), limit);
    }

    /** A number, formatted, or one of the three literal names. */
    method Token(text: string, limit: nat) returns (ok: bool)
      requires Valid()
      modifies this, buffer, state
      ensures Valid() && (buffer == old(buffer) || fresh(buffer))
      ensures (Value(), ok) == Step(old(Value()), Call.Token(text), limit)
    {
      ok := Val(Primitive, Cut(text), limit);
    }

    method Close()
      requires Valid()
      modifies this`depth, state
      ensures Valid() && Value() == Leave(old(Value()))
    {
      state[depth] := state[depth].(hasEnd := true);
      if depth > 0 { depth := depth - 1; }
    }

    method End(limit: nat) returns (ok: bool)
      requires Valid()
      modifies this, buffer, state
      ensures Valid() && (buffer == old(buffer) || fresh(buffer))
      ensures (Value(), ok) == Step(old(Value()), Call.End, limit)
    {
      hide JsonStreamState.Cat, Leave;
      var f := state[depth];
      if f.kind == Object && !f.hasKey && !f.hasEnd {
        ok := Cat("}", limit);
      } else if f.kind == Array && !f.hasEnd {
        ok := Cat("]", limit);
      } else {
        Error();
        ok := false;
      }
      if ok { Close(); }
    }

    method CatKey(str: string, limit: nat) returns (ok: bool)
      requires Valid()
      modifies this`err, this`buffer, this`len, buffer
      ensures Valid() && (buffer == old(buffer) || fresh(buffer))
      ensures (Value(), ok) == CatAll(old(Value()), ["\"", str, "\"", ":"], limit)
    {
      hide JsonStreamState.Cat;
      CatAllHead(Value(), "\"", [str, "\"", ":"], limit);
      ok := Cat("\"", limit);
      if ok {
        CatAllHead(Value(), str, ["\"", ":"], limit);
        ok := Cat(str, limit);
        if ok {
          CatAllHead(Value(), "\"", [":"], limit);
          ok := Cat("\"", limit);
          if ok {
            CatAllHead(Value(), ":", [], limit);
            ok := Cat(":", limit);
          }
        }
      }
    }

    method Key(text: string, limit: nat) returns (ok: bool)
      requires Valid()
      modifies this, buffer, state
      ensures Valid() && (buffer == old(buffer) || fresh(buffer))
      ensures (Value(), ok) == Step(old(Value()), Call.Key(text), limit)
    {
      hide JsonStreamState.Cat, CatAll;
      var f := state[depth];
      if f.kind == Object && !f.hasKey && !f.hasEnd {
        SetState(f.(hasKey := true));
      } else {
        Error();
        return false;
      }
      ok := true;
      if f.count != 0 { ok := Cat(",", limit); }
      if ok {
        SetState(f.(hasKey := true, count := Next(f.count)));
        ok := CatKey(Cut(text), limit);
      }
    }

    /** The text, or null and an error when no value is finished. */
    method Buffer() returns (text: array?<char>, size: nat)
      requires Valid()
      modifies this`err
      ensures Valid() && Value() == Step(old(Value()), Call.Buffer, 0).0
      ensures (text != null) == Fetch(old(Value())).Some?
      ensures text != null ==> size == |Value().text| + 1 <= text.Length && text[..size - 1] == Value().text
    {
      var f := state[depth];
      text, size := null, 0;
      if !err && depth == 0 && f.kind != Undefined && !f.hasKey && f.hasEnd {
        if buffer != null { size := len + 1; }
        text := buffer;
      } else {
        Error();
      }
    }
  }
}
