/**
 The check on a search body that is sent as written: a walk over the decoder's tokens,
 against a schema that may refer back to itself. A document it refuses can be read in two
 ways, and one it accepts can be read in two ways only through a null it did not look into.

 The walk starts from tokens; the field map of a struct type is given.
*/
module SearchBody {
  import opened Wrappers

  // ---------------------------------------------------------------------------
  // Documents, tokens and schemas.
  // ---------------------------------------------------------------------------

  datatype Json =
    | JNull
    | JString(s: string)
    | JOther(text: string)          // a number, true or false
    | JArray(items: Items)
    | JObject(members: Members)

  datatype Items = NoItems | Item(value: Json, rest: Items)

  datatype Members = NoMembers | Member(key: string, value: Json, rest: Members)

  datatype Tok = Null | Str(s: string) | Other(text: string) | ObjOpen | ObjClose | ArrOpen | ArrClose

  function Flatten(v: Json): (ts: seq<Tok>)
    ensures ts != [] && !ts[0].ObjClose? && !ts[0].ArrClose?
  {
    match v
    case JNull => [Null]
    case JString(s) => [Str(s)]
    case JOther(text) => [Other(text)]
    case JArray(items) => [ArrOpen] + FlattenItems(items) + [ArrClose]
    case JObject(members) => [ObjOpen] + FlattenMembers(members) + [ObjClose]
  }

  function FlattenItems(items: Items): seq<Tok> {
    match items
    case NoItems => []
    case Item(v, rest) => Flatten(v) + FlattenItems(rest)
  }

  function FlattenMembers(members: Members): seq<Tok> {
    match members
    case NoMembers => []
    case Member(key, v, rest) => [Str(key)] + Flatten(v) + FlattenMembers(rest)
  }

  /** A use of a type: through any number of pointers, a type of the program. */
  datatype Ref = Pointer(to: Ref) | Named(id: nat)

  /** A type as reflection shows it. Slices and arrays are both lists. */
  datatype Type =
    | Struct(fields: map<string, Ref>)
    | MapOf(elem: Ref)
    | ListOf(elem: Ref)
    | Plain
    | Interface
    | SelfDecoding(keepsBytes: bool)   // a union, kept as it came; or a type like a timestamp, that null leaves alone

  /** The types of the program. A field may refer to any of them, its own struct included. */
  type Schema = seq<Type>

  /** A type the walker can say something about, or None. */
  type Known = Option<nat>

  /** What a use of a type comes to behind all its pointers. */
  function Pointee(r: Ref): nat {
    match r
    case Pointer(to) => Pointee(to)
    case Named(id) => id
  }

  function KnownSchema(sc: Schema, r: Ref): (t: Known)
    ensures t.Some? ==> t.value == Pointee(r)
    ensures t.Some? <==> Pointee(r) < |sc| && !sc[Pointee(r)].Interface? && !sc[Pointee(r)].SelfDecoding?
  {
    match r
    case Pointer(to) => KnownSchema(sc, to)
    case Named(id) => if id >= |sc| || sc[id].Interface? || sc[id].SelfDecoding? then None else Some(id)
  }

  function TypeOf(sc: Schema, t: Known): Option<Type> {
    if t.Some? && t.value < |sc| then Some(sc[t.value]) else None
  }

  function ElementOf(sc: Schema, t: Known): Known {
    match TypeOf(sc, t)
    case Some(ListOf(elem)) => KnownSchema(sc, elem)
    case _ => None
  }

  /** May key stand in an object of type t? Only a struct has an opinion. */
  predicate Spelled(sc: Schema, t: Known, key: string) {
    match TypeOf(sc, t)
    case Some(Struct(fields)) => key in fields
    case _ => true
  }

  function ChildOf(sc: Schema, t: Known, key: string): Known {
    match TypeOf(sc, t)
    case Some(Struct(fields)) => if key in fields then KnownSchema(sc, fields[key]) else None
    case Some(MapOf(elem)) => KnownSchema(sc, elem)
    case _ => None
  }

  // ---------------------------------------------------------------------------
  // The walk, as a function from the tokens to the tokens it leaves.
  // ---------------------------------------------------------------------------

  /** Malformed stands for the decoder's own refusal of a token out of place. */
  datatype WalkError = OutOfTokens | Malformed | NullAtType | KeyNotString | GivenTwice(key: string) | Misspelled(key: string)

  type Walked = Result<seq<Tok>, WalkError>

  predicate MoreIn(ts: seq<Tok>) {
    ts != [] && !ts[0].ObjClose? && !ts[0].ArrClose?
  }

  function Close(ts: seq<Tok>, closer: Tok): (w: Walked)
    ensures w.Success? ==> |w.value| < |ts|
  {
    if ts == [] then Failure(OutOfTokens) else if ts[0] == closer then Success(ts[1..]) else Failure(Malformed)
  }

  function WalkValue(sc: Schema, ts: seq<Tok>, t: Known): (w: Walked)
    ensures w.Success? ==> |w.value| < |ts|
    decreases |ts|, 0
  {
    if ts == [] then Failure(OutOfTokens)
    else
      match ts[0]
      case Null => if t.Some? then Failure(NullAtType) else Success(ts[1..])
      case ObjOpen => WalkMembers(sc, ts[1..], t, {})
      case ArrOpen => WalkItems(sc, ts[1..], ElementOf(sc, t))
      case ObjClose => Failure(Malformed)
      case ArrClose => Failure(Malformed)
      case _ => Success(ts[1..])
  }

  function WalkMembers(sc: Schema, ts: seq<Tok>, t: Known, seen: set<string>): (w: Walked)
    ensures w.Success? ==> |w.value| < |ts|
    decreases |ts|, 1
  {
    if !MoreIn(ts) then Close(ts, ObjClose)
    else if !ts[0].Str? then Failure(KeyNotString)
    else
      var key := ts[0].s;
      if key in seen then Failure(GivenTwice(key))
      else if !Spelled(sc, t, key) then Failure(Misspelled(key))
      else
        match WalkValue(sc, ts[1..], ChildOf(sc, t, key))
        case Failure(e) => Failure(e)
        case Success(rest) => WalkMembers(sc, rest, t, seen + {key})
  }

  function WalkItems(sc: Schema, ts: seq<Tok>, elem: Known): (w: Walked)
    ensures w.Success? ==> |w.value| < |ts|
    decreases |ts|, 1
  {
    if !MoreIn(ts) then Close(ts, ArrClose)
    else
      match WalkValue(sc, ts, elem)
      case Failure(e) => Failure(e)
      case Success(rest) => WalkItems(sc, rest, elem)
  }

  // ---------------------------------------------------------------------------
  // The walker itself: a cursor over the tokens, and three routines that advance it.
  // ---------------------------------------------------------------------------

  class Decoder {
    const toks: seq<Tok>
    var pos: nat

    constructor (toks: seq<Tok>)
      ensures this.toks == toks && pos == 0
    {
      this.toks := toks;
      pos := 0;
    }

    ghost predicate Valid()
      reads this
    {
      pos <= |toks|
    }

    ghost function Left(): seq<Tok>
      requires Valid()
      reads this
    {
      toks[pos..]
    }

    predicate More()
      requires Valid()
      reads this
      ensures More() <==> MoreIn(Left())
    {
      pos < |toks| && !toks[pos].ObjClose? && !toks[pos].ArrClose?
    }

    method Token() returns (tok: Option<Tok>)
      requires Valid()
      modifies this
      ensures Valid()
      ensures if old(Left()) == [] then tok == None && Left() == []
              else tok == Some(old(Left())[0]) && Left() == old(Left())[1..]
    {
      if pos == |toks| {
        return None;
      }
      tok := Some(toks[pos]);
      pos := pos + 1;
    }

    /** What a routine did: it failed as the walk does, or left what the walk leaves. */
    ghost predicate Did(walked: Walked, err: Option<WalkError>)
      requires Valid()
      reads this
    {
      match walked
      case Success(rest) => err == None && Left() == rest
      case Failure(e) => err == Some(e)
    }

    method Shut(closer: Tok) returns (err: Option<WalkError>)
      requires Valid()
      modifies this
      ensures Valid() && Did(Close(old(Left()), closer), err)
    {
      var tok := Token();
      if tok == None {
        return Some(OutOfTokens);
      }
      return if tok.value == closer then None else Some(Malformed);
    }

    method Value(sc: Schema, t: Known) returns (err: Option<WalkError>)
      requires Valid()
      modifies this
      ensures Valid() && Did(WalkValue(sc, old(Left()), t), err)
      decreases |toks| - pos, 0
    {
      var tok := Token();
      if tok == None {
        return Some(OutOfTokens);
      }
      match tok.value
      case Null => err := if t.Some? then Some(NullAtType) else None;
      case ObjOpen => err := Object(sc, t);
      case ArrOpen => err := Array(sc, ElementOf(sc, t));
      case ObjClose => err := Some(Malformed);
      case ArrClose => err := Some(Malformed);
      case _ => err := None;
    }

    method Object(sc: Schema, t: Known) returns (err: Option<WalkError>)
      requires Valid()
      modifies this
      ensures Valid() && Did(WalkMembers(sc, old(Left()), t, {}), err)
      decreases |toks| - pos, 1
    {
      ghost var walked := WalkMembers(sc, Left(), t, {});
      var seen: set<string> := {};
      while More()
        invariant Valid() && pos >= old(pos)
        invariant WalkMembers(sc, Left(), t, seen) == walked
        decreases |toks| - pos
      {
        var tok := Token();
        if !tok.value.Str? {
          return Some(KeyNotString);
        }
        var key := tok.value.s;
        if key in seen {
          return Some(GivenTwice(key));
        }
        seen := seen + {key};
        if !Spelled(sc, t, key) {
          return Some(Misspelled(key));
        }
        err := Value(sc, ChildOf(sc, t, key));
        if err != None {
          return;
        }
      }
      err := Shut(ObjClose);
    }

    method Array(sc: Schema, elem: Known) returns (err: Option<WalkError>)
      requires Valid()
      modifies this
      ensures Valid() && Did(WalkItems(sc, old(Left()), elem), err)
      decreases |toks| - pos, 1
    {
      ghost var walked := WalkItems(sc, Left(), elem);
      while More()
        invariant Valid() && pos >= old(pos)
        invariant WalkItems(sc, Left(), elem) == walked
        decreases |toks| - pos
      {
        err := Value(sc, elem);
        if err != None {
          return;
        }
      }
      err := Shut(ArrClose);
    }
  }

  method CheckSearchKeys(sc: Schema, raw: seq<Tok>, schema: Ref) returns (err: Option<WalkError>)
    ensures err == None <==> WalkValue(sc, raw, KnownSchema(sc, schema)).Success?
    ensures err.Some? ==> WalkValue(sc, raw, KnownSchema(sc, schema)) == Failure(err.value)
  {
    var dec := new Decoder(raw);
    assert dec.Left() == raw;
    err := dec.Value(sc, KnownSchema(sc, schema));
  }

  // ---------------------------------------------------------------------------
  // What is accepted: every object names each of its keys once, spelled as its struct
  // spells it, and null stands only where the schema has nothing to say.
  // ---------------------------------------------------------------------------

  predicate Clean(sc: Schema, v: Json, t: Known) {
    match v
    case JNull => t.None?
    case JArray(items) => CleanItems(sc, items, ElementOf(sc, t))
    case JObject(members) => Distinct(members) && CleanMembers(sc, members, t)
    case _ => true
  }

  predicate CleanItems(sc: Schema, items: Items, elem: Known) {
    match items
    case NoItems => true
    case Item(v, rest) => Clean(sc, v, elem) && CleanItems(sc, rest, elem)
  }

  predicate CleanMembers(sc: Schema, members: Members, t: Known) {
    match members
    case NoMembers => true
    case Member(key, v, rest) => Spelled(sc, t, key) && Clean(sc, v, ChildOf(sc, t, key)) && CleanMembers(sc, rest, t)
  }

  function KeysOf(members: Members): set<string> {
    match members
    case NoMembers => {}
    case Member(key, _, rest) => {key} + KeysOf(rest)
  }

  predicate Distinct(members: Members) {
    match members
    case NoMembers => true
    case Member(key, _, rest) => key !in KeysOf(rest) && Distinct(rest)
  }

  /** Of the tokens of a document, the walk takes all, if it is clean, and else fails. */
  lemma {:induction false} AcceptsExactlyClean(sc: Schema, v: Json, rest: seq<Tok>, t: Known)
    ensures WalkValue(sc, Flatten(v) + rest, t).Success? <==> Clean(sc, v, t)
    ensures Clean(sc, v, t) ==> WalkValue(sc, Flatten(v) + rest, t) == Success(rest)
    decreases v
  {
    var ts := Flatten(v) + rest;
    match v
    case JArray(items) =>
      assert ts[1..] == FlattenItems(items) + ([ArrClose] + rest);
      ItemsExactlyClean(sc, items, rest, ElementOf(sc, t));
    case JObject(members) =>
      assert ts[1..] == FlattenMembers(members) + ([ObjClose] + rest);
      MembersExactlyClean(sc, members, rest, t, {});
    case _ =>
      assert ts[1..] == rest;
  }

  lemma {:induction false} ItemsExactlyClean(sc: Schema, items: Items, rest: seq<Tok>, elem: Known)
    ensures var w := WalkItems(sc, FlattenItems(items) + ([ArrClose] + rest), elem);
      (w.Success? <==> CleanItems(sc, items, elem)) && (w.Success? ==> w.value == rest)
    decreases items
  {
    var ts := FlattenItems(items) + ([ArrClose] + rest);
    match items
    case NoItems =>
      assert ts == [ArrClose] + rest && ts[1..] == rest;
    case Item(v, more) =>
      var after := FlattenItems(more) + ([ArrClose] + rest);
      assert ts == Flatten(v) + after;
      assert ts[0] == Flatten(v)[0];
      AcceptsExactlyClean(sc, v, after, elem);
      ItemsExactlyClean(sc, more, rest, elem);
  }

  lemma {:induction false} MembersExactlyClean(sc: Schema, members: Members, rest: seq<Tok>, t: Known, seen: set<string>)
    ensures var w := WalkMembers(sc, FlattenMembers(members) + ([ObjClose] + rest), t, seen);
      && (w.Success? <==> CleanMembers(sc, members, t) && Distinct(members) && KeysOf(members) !! seen)
      && (w.Success? ==> w.value == rest)
    decreases members
  {
    var ts := FlattenMembers(members) + ([ObjClose] + rest);
    match members
    case NoMembers =>
      assert ts == [ObjClose] + rest && ts[1..] == rest;
    case Member(key, v, more) =>
      var after := FlattenMembers(more) + ([ObjClose] + rest);
      assert ts == [Str(key)] + (Flatten(v) + after);
      assert ts[1..] == Flatten(v) + after;
      AcceptsExactlyClean(sc, v, after, ChildOf(sc, t, key));
      MembersExactlyClean(sc, more, rest, t, seen + {key});
      assert KeysOf(members) !! seen && key !in KeysOf(more) <==> key !in seen && KeysOf(more) !! seen + {key};
  }

  // ---------------------------------------------------------------------------
  // What each kind of type asks of a value, by the type itself.
  // ---------------------------------------------------------------------------

  function ItemSeq(items: Items): seq<Json> {
    match items
    case NoItems => []
    case Item(v, rest) => [v] + ItemSeq(rest)
  }

  function MemberSeq(members: Members): seq<(string, Json)> {
    match members
    case NoMembers => []
    case Member(key, v, rest) => [(key, v)] + MemberSeq(rest)
  }

  /** The check lets a whole value through, where the schema types it as t. */
  ghost predicate Accepts(sc: Schema, v: Json, t: Known) {
    WalkValue(sc, Flatten(v), t) == Success([])
  }

  lemma {:induction false} AcceptsIsClean(sc: Schema, v: Json, t: Known)
    ensures Accepts(sc, v, t) <==> Clean(sc, v, t)
  {
    AcceptsExactlyClean(sc, v, [], t);
    assert Flatten(v) + [] == Flatten(v);
  }

  ghost predicate KeysDiffer(members: Members) {
    forall i, j | 0 <= i < j < |MemberSeq(members)| :: MemberSeq(members)[i].0 != MemberSeq(members)[j].0
  }

  lemma {:induction false} KeyIsIn(members: Members, i: nat)
    requires i < |MemberSeq(members)|
    ensures MemberSeq(members)[i].0 in KeysOf(members)
    decreases members
  {
    if i > 0 {
      KeyIsIn(members.rest, i - 1);
    }
  }

  lemma {:induction false} KeyAt(members: Members, key: string) returns (i: nat)
    requires key in KeysOf(members)
    ensures i < |MemberSeq(members)| && MemberSeq(members)[i].0 == key
    decreases members
  {
    if members.key == key {
      i := 0;
    } else {
      i := KeyAt(members.rest, key);
      i := i + 1;
    }
  }

  lemma {:induction false} DistinctKeysDiffer(members: Members)
    ensures Distinct(members) <==> KeysDiffer(members)
  {
    match members
    case NoMembers =>
    case Member(key, v, rest) =>
      var s, t := MemberSeq(members), MemberSeq(rest);
      DistinctKeysDiffer(rest);
      forall i | 0 <= i < |t| ensures t[i].0 in KeysOf(rest) {
        KeyIsIn(rest, i);
      }
      if key in KeysOf(rest) {
        var i := KeyAt(rest, key);
        assert s[0].0 == s[i + 1].0;
      } else if KeysDiffer(members) {
        forall i, j | 0 <= i < j < |t| ensures t[i].0 != t[j].0 {
          assert s[i + 1].0 != s[j + 1].0;
        }
      }
  }

  lemma {:induction false} ItemIsClean(sc: Schema, items: Items, elem: Known, i: nat)
    requires CleanItems(sc, items, elem) && i < |ItemSeq(items)|
    ensures Clean(sc, ItemSeq(items)[i], elem)
    decreases items
  {
    if i > 0 {
      ItemIsClean(sc, items.rest, elem, i - 1);
      assert ItemSeq(items)[i] == ItemSeq(items.rest)[i - 1];
    }
  }

  lemma {:induction false} ItemsAreClean(sc: Schema, items: Items, elem: Known)
    requires forall i | 0 <= i < |ItemSeq(items)| :: Clean(sc, ItemSeq(items)[i], elem)
    ensures CleanItems(sc, items, elem)
    decreases items
  {
    if items.Item? {
      forall i | 0 <= i < |ItemSeq(items.rest)| ensures Clean(sc, ItemSeq(items.rest)[i], elem) {
        assert Clean(sc, ItemSeq(items)[i + 1], elem);
      }
      assert Clean(sc, ItemSeq(items)[0], elem);
      ItemsAreClean(sc, items.rest, elem);
    }
  }

  ghost predicate CleanEntry(sc: Schema, members: Members, i: nat, t: Known)
    requires i < |MemberSeq(members)|
  {
    var key := MemberSeq(members)[i].0;
    Spelled(sc, t, key) && Clean(sc, MemberSeq(members)[i].1, ChildOf(sc, t, key))
  }

  lemma {:induction false} EntryIsClean(sc: Schema, members: Members, t: Known, i: nat)
    requires CleanMembers(sc, members, t) && i < |MemberSeq(members)|
    ensures CleanEntry(sc, members, i, t)
    decreases members
  {
    if i > 0 {
      EntryIsClean(sc, members.rest, t, i - 1);
      assert MemberSeq(members)[i] == MemberSeq(members.rest)[i - 1];
    }
  }

  lemma {:induction false} EntriesAreClean(sc: Schema, members: Members, t: Known)
    requires forall i | 0 <= i < |MemberSeq(members)| :: CleanEntry(sc, members, i, t)
    ensures CleanMembers(sc, members, t)
    decreases members
  {
    if members.Member? {
      forall i | 0 <= i < |MemberSeq(members.rest)| ensures CleanEntry(sc, members.rest, i, t) {
        assert CleanEntry(sc, members, i + 1, t);
      }
      assert CleanEntry(sc, members, 0, t);
      EntriesAreClean(sc, members.rest, t);
    }
  }

  /** A list asks of each item what its element type asks; an array anywhere else, what no type asks. */
  lemma {:induction false} ArraysAreTyped(sc: Schema, items: Items, t: Known)
    requires t.Some? ==> t.value < |sc|
    ensures var elem := if t.Some? && sc[t.value].ListOf? then KnownSchema(sc, sc[t.value].elem) else None;
      Accepts(sc, JArray(items), t) <==> forall i | 0 <= i < |ItemSeq(items)| :: Accepts(sc, ItemSeq(items)[i], elem)
  {
    var elem := if t.Some? && sc[t.value].ListOf? then KnownSchema(sc, sc[t.value].elem) else None;
    AcceptsIsClean(sc, JArray(items), t);
    if Accepts(sc, JArray(items), t) {
      forall i | 0 <= i < |ItemSeq(items)| ensures Accepts(sc, ItemSeq(items)[i], elem) {
        ItemIsClean(sc, items, elem, i);
        AcceptsIsClean(sc, ItemSeq(items)[i], elem);
      }
    }
    if forall i | 0 <= i < |ItemSeq(items)| :: Accepts(sc, ItemSeq(items)[i], elem) {
      forall i | 0 <= i < |ItemSeq(items)| ensures Clean(sc, ItemSeq(items)[i], elem) {
        AcceptsIsClean(sc, ItemSeq(items)[i], elem);
      }
      ItemsAreClean(sc, items, elem);
    }
  }

  /** What a type asks of one entry of an object, its key included. */
  ghost predicate EntryAccepted(sc: Schema, key: string, v: Json, t: Known)
    requires t.Some? ==> t.value < |sc|
  {
    if t.Some? && sc[t.value].Struct? then
      key in sc[t.value].fields && Accepts(sc, v, KnownSchema(sc, sc[t.value].fields[key]))
    else if t.Some? && sc[t.value].MapOf? then Accepts(sc, v, KnownSchema(sc, sc[t.value].elem))
    else Accepts(sc, v, None)
  }

  ghost predicate EntriesAccepted(sc: Schema, members: Members, t: Known)
    requires t.Some? ==> t.value < |sc|
  {
    forall i | 0 <= i < |MemberSeq(members)| :: EntryAccepted(sc, MemberSeq(members)[i].0, MemberSeq(members)[i].1, t)
  }

  lemma {:induction false} EntriesAcceptedAreClean(sc: Schema, members: Members, t: Known)
    requires t.Some? ==> t.value < |sc|
    ensures CleanMembers(sc, members, t) <==> EntriesAccepted(sc, members, t)
  {
    if CleanMembers(sc, members, t) {
      forall i | 0 <= i < |MemberSeq(members)|
        ensures EntryAccepted(sc, MemberSeq(members)[i].0, MemberSeq(members)[i].1, t)
      {
        EntryIsClean(sc, members, t, i);
        EntryAcceptedIsClean(sc, members, i, t);
      }
    } else if EntriesAccepted(sc, members, t) {
      forall i | 0 <= i < |MemberSeq(members)| ensures CleanEntry(sc, members, i, t) {
        EntryAcceptedIsClean(sc, members, i, t);
      }
      EntriesAreClean(sc, members, t);
    }
  }

  /**
   An object may not repeat a key. A struct knows its keys and asks of each value what that
   field's type asks; a map asks what its element type asks; anything else, what no type asks.
  */
  lemma {:induction false} ObjectsAreTyped(sc: Schema, members: Members, t: Known)
    requires t.Some? ==> t.value < |sc|
    ensures Accepts(sc, JObject(members), t) <==> KeysDiffer(members) && EntriesAccepted(sc, members, t)
  {
    AcceptsIsClean(sc, JObject(members), t);
    DistinctKeysDiffer(members);
    EntriesAcceptedAreClean(sc, members, t);
  }

  lemma {:induction false} EntryAcceptedIsClean(sc: Schema, members: Members, i: nat, t: Known)
    requires i < |MemberSeq(members)| && (t.Some? ==> t.value < |sc|)
    ensures CleanEntry(sc, members, i, t) <==> EntryAccepted(sc, MemberSeq(members)[i].0, MemberSeq(members)[i].1, t)
  {
    AcceptsIsClean(sc, MemberSeq(members)[i].1, ChildOf(sc, t, MemberSeq(members)[i].0));
  }

  /** Of the values without parts only null is ever refused, and exactly where there is a type. */
  lemma {:induction false} ScalarsAreTyped(sc: Schema, v: Json, t: Known)
    requires !v.JArray? && !v.JObject?
    ensures Accepts(sc, v, t) <==> !(v.JNull? && t.Some?)
  {
    AcceptsIsClean(sc, v, t);
  }

  // ---------------------------------------------------------------------------
  // Any tokens at all: what is accepted begins with a clean document.
  // ---------------------------------------------------------------------------

  lemma {:induction false} AcceptedIsClean(sc: Schema, ts: seq<Tok>, t: Known) returns (v: Json)
    requires WalkValue(sc, ts, t).Success?
    ensures ts == Flatten(v) + WalkValue(sc, ts, t).value && Clean(sc, v, t)
    decreases |ts|, 0
  {
    assert ts == [ts[0]] + ts[1..];
    match ts[0]
    case Null => v := JNull;
    case Str(s) => v := JString(s);
    case Other(text) => v := JOther(text);
    case ObjOpen =>
      var members := AcceptedMembers(sc, ts[1..], t, {});
      v := JObject(members);
    case ArrOpen =>
      var items := AcceptedItems(sc, ts[1..], ElementOf(sc, t));
      v := JArray(items);
    case _ => assert false;
  }

  lemma Regroup(ts: seq<Tok>, key: Tok, v: seq<Tok>, more: seq<Tok>, rest: seq<Tok>)
    requires ts != [] && ts[0] == key && ts[1..] == v + (more + [ObjClose] + rest)
    ensures ts == ([key] + v + more) + [ObjClose] + rest
  {
  }

  lemma {:induction false} AcceptedMembers(sc: Schema, ts: seq<Tok>, t: Known, seen: set<string>) returns (members: Members)
    requires WalkMembers(sc, ts, t, seen).Success?
    ensures ts == FlattenMembers(members) + [ObjClose] + WalkMembers(sc, ts, t, seen).value
    ensures CleanMembers(sc, members, t) && Distinct(members) && KeysOf(members) !! seen
    decreases |ts|, 1
  {
    if !MoreIn(ts) {
      members := NoMembers;
      assert ts == [ts[0]] + ts[1..];
    } else {
      var key := ts[0].s;
      var rest := WalkValue(sc, ts[1..], ChildOf(sc, t, key)).value;
      var v := AcceptedIsClean(sc, ts[1..], ChildOf(sc, t, key));
      var more := AcceptedMembers(sc, rest, t, seen + {key});
      members := Member(key, v, more);
      Regroup(ts, Str(key), Flatten(v), FlattenMembers(more), WalkMembers(sc, ts, t, seen).value);
    }
  }

  lemma RegroupItem(ts: seq<Tok>, v: seq<Tok>, more: seq<Tok>, rest: seq<Tok>)
    requires ts == v + (more + [ArrClose] + rest)
    ensures ts == (v + more) + [ArrClose] + rest
  {
  }

  lemma {:induction false} AcceptedItems(sc: Schema, ts: seq<Tok>, elem: Known) returns (items: Items)
    requires WalkItems(sc, ts, elem).Success?
    ensures ts == FlattenItems(items) + [ArrClose] + WalkItems(sc, ts, elem).value
    ensures CleanItems(sc, items, elem)
    decreases |ts|, 1
  {
    if !MoreIn(ts) {
      items := NoItems;
      assert ts == [ts[0]] + ts[1..];
    } else {
      var rest := WalkValue(sc, ts, elem).value;
      var v := AcceptedIsClean(sc, ts, elem);
      var more := AcceptedItems(sc, rest, elem);
      items := Item(v, more);
      RegroupItem(ts, Flatten(v), FlattenItems(more), WalkItems(sc, ts, elem).value);
    }
  }

  /** A document cut short anywhere is refused. */
  lemma {:induction false} CutShortIsRefused(sc: Schema, v: Json, n: nat, t: Known)
    requires n < |Flatten(v)|
    ensures WalkValue(sc, Flatten(v)[..n], t).Failure?
  {
    var ts := Flatten(v);
    if WalkValue(sc, ts[..n], t).Success? {
      var rest := WalkValue(sc, ts[..n], t).value;
      var u := AcceptedIsClean(sc, ts[..n], t);
      Rejoin(ts, n, Flatten(u), rest);
      AcceptsExactlyClean(sc, u, rest + ts[n..], t);
      AcceptsExactlyClean(sc, v, [], t);
      assert false;
    }
  }

  lemma Rejoin(ts: seq<Tok>, n: nat, taken: seq<Tok>, rest: seq<Tok>)
    requires n <= |ts| && ts[..n] == taken + rest
    ensures ts + [] == ts == taken + (rest + ts[n..])
  {
    assert ts == ts[..n] + ts[n..];
  }

  // ---------------------------------------------------------------------------
  // Readers of a document.
  // ---------------------------------------------------------------------------

  /** What a reader takes a document for. Zero is a field nothing was read into. */
  datatype Reading =
    | Zero
    | Nil
    | Text(s: string)
    | Literal(text: string)
    | Listing(docs: seq<Reading>)
    | Fields(values: map<string, Reading>)

  /** Where a value stands: a struct's field, an item, an entry or the document itself, or where no type reaches. */
  datatype Place = Field(ref: Ref) | Element(ref: Ref) | Untyped

  function KnownAt(sc: Schema, p: Place): Known {
    if p.Untyped? then None else KnownSchema(sc, p.ref)
  }

  predicate HasFields(sc: Schema, t: Known) {
    TypeOf(sc, t).Some? && TypeOf(sc, t).value.Struct?
  }

  function ItemPlace(sc: Schema, t: Known): (p: Place)
    ensures KnownAt(sc, p) == ElementOf(sc, t) && !p.Field?
  {
    match TypeOf(sc, t)
    case Some(ListOf(elem)) => Element(elem)
    case _ => Untyped
  }

  function MemberPlace(sc: Schema, t: Known, key: string): (p: Place)
    ensures KnownAt(sc, p) == ChildOf(sc, t, key)
    ensures p.Field? ==> HasFields(sc, t)
  {
    match TypeOf(sc, t)
    case Some(Struct(fields)) => if key in fields then Field(fields[key]) else Untyped
    case Some(MapOf(elem)) => Element(elem)
    case _ => Untyped
  }

  /**
   How a reader settles what section 4 of RFC 8259 and the schema leave open: the field it
   takes a key for that is no field's name, what two values of one key make, and what null
   leaves behind at each place.
  */
  datatype Reader = Reader(
    near: (map<string, Ref>, string) -> Option<string>,
    again: (Reading, Reading) -> Reading,
    nil: Place -> Reading
  )

  /** A key spelled as a field always means that field. */
  ghost predicate Faithful(rd: Reader) {
    forall fields: map<string, Ref>, key: string :: key in fields ==> rd.near(fields, key) == Some(key)
  }

  function FieldFor(rd: Reader, sc: Schema, t: Known, key: string): Option<string> {
    match TypeOf(sc, t)
    case Some(Struct(fields)) => rd.near(fields, key)
    case _ => Some(key)
  }

  function Read(rd: Reader, sc: Schema, v: Json, p: Place): Reading
    decreases v, 0
  {
    match v
    case JNull => rd.nil(p)
    case JString(s) => Text(s)
    case JOther(text) => Literal(text)
    case JArray(items) => Listing(ReadItems(rd, sc, items, ItemPlace(sc, KnownAt(sc, p))))
    case JObject(members) => Fields(ReadMembers(rd, sc, members, KnownAt(sc, p), map[]))
  }

  function ReadItems(rd: Reader, sc: Schema, items: Items, p: Place): (docs: seq<Reading>)
    decreases items, 0
  {
    match items
    case NoItems => []
    case Item(v, rest) => [Read(rd, sc, v, p)] + ReadItems(rd, sc, rest, p)
  }

  function ReadMembers(rd: Reader, sc: Schema, members: Members, t: Known, acc: map<string, Reading>): map<string, Reading>
    decreases members, 0
  {
    match members
    case NoMembers => acc
    case Member(key, v, rest) => ReadMembers(rd, sc, rest, t, ReadMember(rd, sc, key, v, t, acc))
  }

  function ReadMember(rd: Reader, sc: Schema, key: string, v: Json, t: Known, acc: map<string, Reading>): map<string, Reading>
    decreases v, 1
  {
    match FieldFor(rd, sc, t, key)
    case None => acc
    case Some(name) => PutField(rd, acc, name, Read(rd, sc, v, MemberPlace(sc, t, name)), HasFields(sc, t))
  }

  /** A field of a struct that nothing was read into is as if its key had not been there; a map keeps the key. */
  function PutField(rd: Reader, acc: map<string, Reading>, name: string, d: Reading, ofStruct: bool): map<string, Reading> {
    if d.Zero? && ofStruct then acc else acc[name := if name in acc then rd.again(acc[name], d) else d]
  }

  // --- nulls, and where they stand ---

  /** Some null of the document stands at one of those places. */
  predicate NullAt(sc: Schema, v: Json, p: Place, places: Place -> bool) {
    match v
    case JNull => places(p)
    case JArray(items) => NullInItems(sc, items, ItemPlace(sc, KnownAt(sc, p)), places)
    case JObject(members) => NullInMembers(sc, members, KnownAt(sc, p), places)
    case _ => false
  }

  predicate NullInItems(sc: Schema, items: Items, p: Place, places: Place -> bool) {
    match items
    case NoItems => false
    case Item(v, rest) => NullAt(sc, v, p, places) || NullInItems(sc, rest, p, places)
  }

  predicate NullInMembers(sc: Schema, members: Members, t: Known, places: Place -> bool) {
    match members
    case NoMembers => false
    case Member(key, v, rest) => NullAt(sc, v, MemberPlace(sc, t, key), places) || NullInMembers(sc, rest, t, places)
  }

  /** The places where two readers take null for different things. */
  function Disagree(a: Reader, b: Reader): Place -> bool {
    p => a.nil(p) != b.nil(p)
  }

  function Anywhere(): Place -> bool {
    p => true
  }

  lemma {:induction false} MorePlacesMoreNulls(sc: Schema, v: Json, p: Place, a: Place -> bool, b: Place -> bool)
    requires forall q :: a(q) ==> b(q)
    ensures NullAt(sc, v, p, a) ==> NullAt(sc, v, p, b)
    decreases v
  {
    match v
    case JArray(items) => MoreNullsInItems(sc, items, ItemPlace(sc, KnownAt(sc, p)), a, b);
    case JObject(members) => MoreNullsInMembers(sc, members, KnownAt(sc, p), a, b);
    case _ =>
  }

  lemma {:induction false} MoreNullsInItems(sc: Schema, items: Items, p: Place, a: Place -> bool, b: Place -> bool)
    requires forall q :: a(q) ==> b(q)
    ensures NullInItems(sc, items, p, a) ==> NullInItems(sc, items, p, b)
    decreases items
  {
    match items
    case NoItems =>
    case Item(v, rest) =>
      MorePlacesMoreNulls(sc, v, p, a, b);
      MoreNullsInItems(sc, rest, p, a, b);
  }

  lemma {:induction false} MoreNullsInMembers(sc: Schema, members: Members, t: Known, a: Place -> bool, b: Place -> bool)
    requires forall q :: a(q) ==> b(q)
    ensures NullInMembers(sc, members, t, a) ==> NullInMembers(sc, members, t, b)
    decreases members
  {
    match members
    case NoMembers =>
    case Member(key, v, rest) =>
      MorePlacesMoreNulls(sc, v, MemberPlace(sc, t, key), a, b);
      MoreNullsInMembers(sc, rest, t, a, b);
  }

  // ---------------------------------------------------------------------------
  // On a clean document two faithful readers read the same, but for the nulls they
  // disagree about.
  // ---------------------------------------------------------------------------

  lemma {:induction false} ReadersAgree(a: Reader, b: Reader, sc: Schema, v: Json, p: Place)
    requires Faithful(a) && Faithful(b)
    requires Clean(sc, v, KnownAt(sc, p)) && !NullAt(sc, v, p, Disagree(a, b))
    ensures Read(a, sc, v, p) == Read(b, sc, v, p)
    decreases v
  {
    match v
    case JArray(items) => ItemsAgree(a, b, sc, items, ItemPlace(sc, KnownAt(sc, p)));
    case JObject(members) => MembersAgree(a, b, sc, members, KnownAt(sc, p), map[]);
    case _ =>
  }

  lemma {:induction false} ItemsAgree(a: Reader, b: Reader, sc: Schema, items: Items, p: Place)
    requires Faithful(a) && Faithful(b)
    requires CleanItems(sc, items, KnownAt(sc, p)) && !NullInItems(sc, items, p, Disagree(a, b))
    ensures ReadItems(a, sc, items, p) == ReadItems(b, sc, items, p)
    decreases items
  {
    match items
    case NoItems =>
    case Item(v, rest) =>
      ReadersAgree(a, b, sc, v, p);
      ItemsAgree(a, b, sc, rest, p);
  }

  lemma {:induction false} MembersAgree(a: Reader, b: Reader, sc: Schema, members: Members, t: Known, acc: map<string, Reading>)
    requires Faithful(a) && Faithful(b) && !NullInMembers(sc, members, t, Disagree(a, b))
    requires CleanMembers(sc, members, t) && Distinct(members) && KeysOf(members) !! acc.Keys
    ensures ReadMembers(a, sc, members, t, acc) == ReadMembers(b, sc, members, t, acc)
    decreases members
  {
    match members
    case NoMembers =>
    case Member(key, v, rest) =>
      ReadersAgree(a, b, sc, v, MemberPlace(sc, t, key));
      assert FieldFor(a, sc, t, key) == FieldFor(b, sc, t, key) == Some(key);
      assert key in KeysOf(members) && key !in acc;
      MembersAgree(a, b, sc, rest, t, ReadMember(a, sc, key, v, t, acc));
  }

  lemma {:induction false} NullTellsApart(a: Reader, b: Reader, sc: Schema, v: Json, p: Place)
    requires Faithful(a) && Faithful(b)
    requires Clean(sc, v, KnownAt(sc, p)) && NullAt(sc, v, p, Disagree(a, b))
    ensures Read(a, sc, v, p) != Read(b, sc, v, p)
    decreases v
  {
    match v
    case JNull =>
    case JArray(items) => NullItemTellsApart(a, b, sc, items, ItemPlace(sc, KnownAt(sc, p)));
    case JObject(members) => NullMemberTellsApart(a, b, sc, members, KnownAt(sc, p), map[], map[]);
  }

  lemma {:induction false} NullItemTellsApart(a: Reader, b: Reader, sc: Schema, items: Items, p: Place)
    requires Faithful(a) && Faithful(b)
    requires CleanItems(sc, items, KnownAt(sc, p)) && NullInItems(sc, items, p, Disagree(a, b))
    ensures ReadItems(a, sc, items, p) != ReadItems(b, sc, items, p)
    decreases items
  {
    var x, y := ReadItems(a, sc, items, p), ReadItems(b, sc, items, p);
    if NullAt(sc, items.value, p, Disagree(a, b)) {
      NullTellsApart(a, b, sc, items.value, p);
      assert x[0] != y[0];
    } else {
      NullItemTellsApart(a, b, sc, items.rest, p);
      assert x[1..] == ReadItems(a, sc, items.rest, p);
      assert y[1..] == ReadItems(b, sc, items.rest, p);
    }
  }

  lemma {:induction false} NullMemberTellsApart(
    a: Reader, b: Reader, sc: Schema, members: Members, t: Known, x: map<string, Reading>, y: map<string, Reading>)
    requires Faithful(a) && Faithful(b)
    requires CleanMembers(sc, members, t) && Distinct(members) && KeysOf(members) !! x.Keys + y.Keys
    requires x != y || NullInMembers(sc, members, t, Disagree(a, b))
    ensures ReadMembers(a, sc, members, t, x) != ReadMembers(b, sc, members, t, y)
    decreases members
  {
    match members
    case NoMembers =>
    case Member(key, v, rest) =>
      var p := MemberPlace(sc, t, key);
      if NullAt(sc, v, p, Disagree(a, b)) {
        NullTellsApart(a, b, sc, v, p);
      }
      assert FieldFor(a, sc, t, key) == FieldFor(b, sc, t, key) == Some(key);
      assert key in KeysOf(members) && key !in x && key !in y;
      FirstTimeTellsApart(a, b, x, y, key, Read(a, sc, v, p), Read(b, sc, v, p), HasFields(sc, t));
      NullMemberTellsApart(a, b, sc, rest, t, ReadMember(a, sc, key, v, t, x), ReadMember(b, sc, key, v, t, y));
  }

  lemma {:induction false} FirstTimeTellsApart(
    a: Reader, b: Reader, x: map<string, Reading>, y: map<string, Reading>, key: string,
    da: Reading, db: Reading, ofStruct: bool)
    requires key !in x && key !in y
    ensures var x', y' := PutField(a, x, key, da, ofStruct), PutField(b, y, key, db, ofStruct);
      && x'.Keys <= x.Keys + {key} && y'.Keys <= y.Keys + {key}
      && (x != y || da != db ==> x' != y')
  {
    var x', y' := PutField(a, x, key, da, ofStruct), PutField(b, y, key, db, ofStruct);
    assert x == x' - {key} && y == y' - {key};
    if da != db {
      assert key in x' && key in y' ==> x'[key] != y'[key];
      assert key in x' || key in y';
    }
  }

  // ---------------------------------------------------------------------------
  // On a document that is not clean two faithful readers read differently.
  // ---------------------------------------------------------------------------

  /** A reader that leaves its mark wherever it may decide. */
  function Marking(mark: string, keepsStrays: bool): (rd: Reader)
    ensures Faithful(rd)
  {
    Reader(
      (fields: map<string, Ref>, key: string) => if key in fields || keepsStrays then Some(key) else None,
      (earlier: Reading, later: Reading) => Literal(mark),
      (p: Place) => Literal(mark))
  }

  const STRICT := Marking("x", false)
  const LOOSE := Marking("y", true)

  /** The loose reading of an object has every field of the strict one, and strays besides. */
  ghost predicate Beside(sc: Schema, t: Known, x: map<string, Reading>, y: map<string, Reading>) {
    && (forall k | k in x :: k in y && Spelled(sc, t, k))
    && (forall k | k in y && Spelled(sc, t, k) :: k in x)
  }

  /** The two readings of the field k differ. */
  ghost predicate ApartAt(x: map<string, Reading>, y: map<string, Reading>, k: string) {
    k in y && (k in x ==> x[k] != y[k])
  }

  ghost predicate Apart(x: map<string, Reading>, y: map<string, Reading>) {
    exists k :: ApartAt(x, y, k)
  }

  lemma {:induction false} SomethingIsRead(mark: string, strays: bool, sc: Schema, v: Json, p: Place)
    ensures !Read(Marking(mark, strays), sc, v, p).Zero?
  {
  }

  /** One member more: the readings stay beside each other, and what was apart stays so. */
  lemma {:induction false} OneMemberMore(sc: Schema, key: string, v: Json, t: Known, x: map<string, Reading>, y: map<string, Reading>)
    requires Beside(sc, t, x, y)
    ensures var x' := ReadMember(STRICT, sc, key, v, t, x); var y' := ReadMember(LOOSE, sc, key, v, t, y);
      && Beside(sc, t, x', y') && y'.Keys == y.Keys + {key}
      && (Apart(x, y) ==> Apart(x', y'))
      && (key in y || !Spelled(sc, t, key) ==> Apart(x', y'))
      && (Read(STRICT, sc, v, MemberPlace(sc, t, key)) != Read(LOOSE, sc, v, MemberPlace(sc, t, key)) ==> Apart(x', y'))
  {
    var x' := ReadMember(STRICT, sc, key, v, t, x);
    var y' := ReadMember(LOOSE, sc, key, v, t, y);
    var p := MemberPlace(sc, t, key);
    SomethingIsRead("x", false, sc, v, p);
    SomethingIsRead("y", true, sc, v, p);
    assert FieldFor(LOOSE, sc, t, key) == Some(key);
    assert FieldFor(STRICT, sc, t, key) == if Spelled(sc, t, key) then Some(key) else None;
    if key in y || !Spelled(sc, t, key) || Read(STRICT, sc, v, p) != Read(LOOSE, sc, v, p) {
      assert ApartAt(x', y', key);
    } else if Apart(x, y) {
      var k :| ApartAt(x, y, k);
      assert ApartAt(x', y', k);
    }
  }

  lemma {:induction false} MembersTellApart(sc: Schema, members: Members, t: Known, x: map<string, Reading>, y: map<string, Reading>)
    requires Beside(sc, t, x, y)
    requires Apart(x, y) || !CleanMembers(sc, members, t) || !Distinct(members) || !(KeysOf(members) !! y.Keys)
    ensures Apart(ReadMembers(STRICT, sc, members, t, x), ReadMembers(LOOSE, sc, members, t, y))
    decreases members
  {
    match members
    case NoMembers =>
    case Member(key, v, rest) =>
      var x' := ReadMember(STRICT, sc, key, v, t, x);
      var y' := ReadMember(LOOSE, sc, key, v, t, y);
      if !Clean(sc, v, ChildOf(sc, t, key)) {
        UncleanTellsApart(sc, v, MemberPlace(sc, t, key));
      }
      OneMemberMore(sc, key, v, t, x, y);
      MembersTellApart(sc, rest, t, x', y');
  }

  lemma {:induction false} ItemsTellApart(sc: Schema, items: Items, p: Place)
    requires !CleanItems(sc, items, KnownAt(sc, p))
    ensures ReadItems(STRICT, sc, items, p) != ReadItems(LOOSE, sc, items, p)
    decreases items
  {
    var x := ReadItems(STRICT, sc, items, p);
    var y := ReadItems(LOOSE, sc, items, p);
    if !Clean(sc, items.value, KnownAt(sc, p)) {
      UncleanTellsApart(sc, items.value, p);
      assert x[0] != y[0];
    } else {
      ItemsTellApart(sc, items.rest, p);
      assert x[1..] == ReadItems(STRICT, sc, items.rest, p);
      assert y[1..] == ReadItems(LOOSE, sc, items.rest, p);
    }
  }

  lemma {:induction false} UncleanTellsApart(sc: Schema, v: Json, p: Place)
    requires !Clean(sc, v, KnownAt(sc, p))
    ensures Read(STRICT, sc, v, p) != Read(LOOSE, sc, v, p)
    decreases v
  {
    match v
    case JNull =>
    case JArray(items) => ItemsTellApart(sc, items, ItemPlace(sc, KnownAt(sc, p)));
    case JObject(members) =>
      MembersTellApart(sc, members, KnownAt(sc, p), map[], map[]);
      var x := ReadMembers(STRICT, sc, members, KnownAt(sc, p), map[]);
      var y := ReadMembers(LOOSE, sc, members, KnownAt(sc, p), map[]);
      var k :| ApartAt(x, y, k);
  }

  // ---------------------------------------------------------------------------
  // What the check is worth.
  // ---------------------------------------------------------------------------

  /**
   No two faithful readers can differ on a document exactly when the check lets it through
   and no null is left in it.
  */
  lemma {:induction false} UnambiguousExactlyWithoutNull(sc: Schema, v: Json, rest: seq<Tok>, p: Place)
    ensures (forall a: Reader, b: Reader :: Faithful(a) && Faithful(b) ==> Read(a, sc, v, p) == Read(b, sc, v, p))
            <==> WalkValue(sc, Flatten(v) + rest, KnownAt(sc, p)).Success? && !NullAt(sc, v, p, Anywhere())
  {
    AcceptsExactlyClean(sc, v, rest, KnownAt(sc, p));
    assert Faithful(STRICT) && Faithful(LOOSE);
    if !Clean(sc, v, KnownAt(sc, p)) {
      UncleanTellsApart(sc, v, p);
    } else if NullAt(sc, v, p, Anywhere()) {
      MorePlacesMoreNulls(sc, v, p, Anywhere(), Disagree(STRICT, LOOSE));
      NullTellsApart(STRICT, LOOSE, sc, v, p);
    } else {
      forall a: Reader, b: Reader | Faithful(a) && Faithful(b) ensures Read(a, sc, v, p) == Read(b, sc, v, p) {
        MorePlacesMoreNulls(sc, v, p, Disagree(a, b), Anywhere());
        ReadersAgree(a, b, sc, v, p);
      }
    }
  }

  /** The type named outright at r, if it is one the program has. */
  function NamedType(sc: Schema, r: Ref): Option<Type> {
    if r.Named? && r.id < |sc| then Some(sc[r.id]) else None
  }

  /** Types whose values have a nil of their own. */
  predicate HasNil(sc: Schema, r: Ref) {
    || r.Pointer?
    || match NamedType(sc, r) { case Some(t) => t.Interface? || t.ListOf? || t.MapOf? case None => false }
  }

  /** Types that null leaves at their zero value. */
  predicate IgnoresNull(sc: Schema, r: Ref) {
    match NamedType(sc, r)
    case Some(Struct(_)) => true
    case Some(Plain) => true
    case Some(SelfDecoding(keepsBytes)) => !keepsBytes
    case _ => false
  }

  /**
   The program's own decoder: a key means any field it folds to, and the last value wins.
   Null makes a nil, which in a struct's field is the same as no key; it leaves alone a
   type that ignores it; and where a union or an interface keeps the JSON, it stays null.
  */
  ghost function Lenient(fold: string -> string, sc: Schema): (rd: Reader)
    ensures Faithful(rd)
  {
    Reader(
      (fields: map<string, Ref>, key: string) => FoldedField(fold, fields, key),
      (earlier: Reading, later: Reading) => later,
      (p: Place) => if LosesNull(sc, p) then Zero else Nil)
  }

  /** The places where the program's decoder does not see a null as one. */
  predicate LosesNull(sc: Schema, p: Place) {
    match p
    case Field(r) => HasNil(sc, r) || IgnoresNull(sc, r)
    case Element(r) => IgnoresNull(sc, r)
    case Untyped => false
  }

  function Losing(sc: Schema): Place -> bool {
    p => LosesNull(sc, p)
  }

  ghost function FoldedField(fold: string -> string, fields: map<string, Ref>, key: string): Option<string> {
    if key in fields then Some(key)
    else if exists name :: name in fields && fold(name) == fold(key) then
      var name :| name in fields && fold(name) == fold(key); Some(name)
    else None
  }

  /** A reader that knows a field by its name alone, keeps the first value, and sees null as null. */
  function Exact(): (rd: Reader)
    ensures Faithful(rd)
  {
    Reader(
      (fields: map<string, Ref>, key: string) => if key in fields then Some(key) else None,
      (earlier: Reading, later: Reading) => earlier,
      (p: Place) => Nil)
  }

  /**
   Once a document is accepted, what the program validated is what an exact reader is sent,
   exactly when no null stands where the decoder loses it.
  */
  lemma {:induction false} ValidatedIsWhatIsSent(fold: string -> string, sc: Schema, v: Json, rest: seq<Tok>, p: Place)
    requires WalkValue(sc, Flatten(v) + rest, KnownAt(sc, p)).Success?
    ensures Read(Lenient(fold, sc), sc, v, p) == Read(Exact(), sc, v, p) <==> !NullAt(sc, v, p, Losing(sc))
  {
    AcceptsExactlyClean(sc, v, rest, KnownAt(sc, p));
    var differ := Disagree(Lenient(fold, sc), Exact());
    MorePlacesMoreNulls(sc, v, p, Losing(sc), differ);
    MorePlacesMoreNulls(sc, v, p, differ, Losing(sc));
    if NullAt(sc, v, p, Losing(sc)) {
      NullTellsApart(Lenient(fold, sc), Exact(), sc, v, p);
    } else {
      ReadersAgree(Lenient(fold, sc), Exact(), sc, v, p);
    }
  }

  /** A struct, a pointer to a timestamp, a map of unions: the types of the two documents below. */
  const SEARCH: Schema := [
    Struct(map["gte" := Pointer(Named(1)), "customAttributes" := Pointer(Named(2))]),
    SelfDecoding(false),
    MapOf(Named(3)),
    SelfDecoding(true)
  ]

  lemma {:induction false} LenientSkips(fold: string -> string)
    ensures ReadMember(Lenient(fold, SEARCH), SEARCH, "gte", JNull, Some(0), map[]) == map[]
  {
    assert MemberPlace(SEARCH, Some(0), "gte") == Field(Pointer(Named(1)));
    assert Lenient(fold, SEARCH).nil(Field(Pointer(Named(1)))) == Zero;
    assert FieldFor(Lenient(fold, SEARCH), SEARCH, Some(0), "gte") == Some("gte");
  }

  /**
   A null the check does not look into: a field whose type, behind its pointer, decodes
   itself, as a timestamp does. The program reads the field as absent; the null is sent.
  */
  lemma {:induction false} NullGetsThrough(fold: string -> string)
    ensures var v, root := JObject(Member("gte", JNull, NoMembers)), Element(Named(0));
      && WalkValue(SEARCH, Flatten(v), KnownAt(SEARCH, root)).Success?
      && Read(Lenient(fold, SEARCH), SEARCH, v, root) == Read(Lenient(fold, SEARCH), SEARCH, JObject(NoMembers), root)
      && Read(Exact(), SEARCH, v, root) == Fields(map["gte" := Nil])
      && Read(Exact(), SEARCH, JObject(NoMembers), root) == Fields(map[])
  {
    var v := JObject(Member("gte", JNull, NoMembers));
    AcceptsExactlyClean(SEARCH, v, [], Some(0));
    assert Flatten(v) + [] == Flatten(v);
    assert KnownSchema(SEARCH, Pointer(Named(1))) == None;
    LenientSkips(fold);
  }

  /** A null it rightly lets through: an entry of a map of unions, which keep what they are given. */
  lemma {:induction false} UnionKeepsNull(fold: string -> string)
    ensures var v := JObject(Member("customAttributes", JObject(Member("lot", JNull, NoMembers)), NoMembers));
      var root := Element(Named(0));
      && WalkValue(SEARCH, Flatten(v), KnownAt(SEARCH, root)).Success?
      && Read(Lenient(fold, SEARCH), SEARCH, v, root) == Read(Exact(), SEARCH, v, root)
      && Read(Exact(), SEARCH, v, root) == Fields(map["customAttributes" := Fields(map["lot" := Nil])])
  {
    var lot := JObject(Member("lot", JNull, NoMembers));
    var v := JObject(Member("customAttributes", lot, NoMembers));
    assert KnownSchema(SEARCH, Pointer(Named(2))) == Some(2) && KnownSchema(SEARCH, Named(3)) == None;
    assert Clean(SEARCH, lot, Some(2));
    AcceptsExactlyClean(SEARCH, v, [], Some(0));
    assert Flatten(v) + [] == Flatten(v);
    assert Read(Exact(), SEARCH, lot, Field(Pointer(Named(2)))) == Fields(map["lot" := Nil]);
    assert !NullAt(SEARCH, lot, Field(Pointer(Named(2))), Losing(SEARCH));
    ValidatedIsWhatIsSent(fold, SEARCH, v, [], Element(Named(0)));
  }
}
