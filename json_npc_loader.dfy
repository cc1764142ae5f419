/**
  `JSONNPCLoader`: a hand-rolled reader for NPC files. It is not a JSON parser: it trims
  the outer braces, looks for the text `"npcs"`, cuts between the first `[` and the
  last `]`, splits that into brace-balanced groups and reads each group as
  comma-separated `key:value` pairs (quotes dropped, integers recognised by
  `Integer.parseInt`). Every exception is caught by `loadNPCsFromMap`, which then
  returns what it had collected; since the list is only filled after parsing has
  finished, that is always the empty list.

  Reading the resource is not modelled: the loader receives the file's text (its lines
  concatenated, as `readStream` returns them), or `None` when the resource is missing.
*/
module JsonNpcLoader {
  import opened Wrappers
  import opened JavaText
  import opened NPCModel

  /** A parsed value: `Integer` when `Integer.parseInt` accepts the text, `String` otherwise. */
  datatype Field = IntField(n: int) | StrField(s: string)

  type Entries = map<string, Field>

  /** What `parseJSON` returns: the single key "npcs" holding a list of objects, or plain entries. */
  datatype Parsed = NpcList(objects: seq<Entries>) | Plain(entries: Entries)

  // ---------------------------------------------------------------------------
  // parseKeyValuePairs

  /** A value as stored: an integer when it parses as one, the text otherwise. */
  function FieldOf(value: string): (f: Field)
    ensures f.IntField? <==> ParseInt(value).Some?
    ensures f.IntField? ==> Some(f.n) == ParseInt(value)
    ensures f.StrField? ==> f.s == value
  {
    match ParseInt(value)
    case Some(n) => IntField(n)
    case None => StrField(value)
  }

  /** One comma-separated piece: a key and value when it splits on ':' into exactly two parts. */
  function PairOf(piece: string): Option<(string, Field)> {
    var kv := Split(Trim(piece), ':');
    if |kv| == 2 then
      Some((RemoveChar(Trim(kv[0]), '"'), FieldOf(RemoveChar(Trim(kv[1]), '"'))))
    else None
  }

  /** The pair each piece yields, in order. */
  function PairsOf(pieces: seq<string>): (r: seq<Option<(string, Field)>>)
    ensures |r| == |pieces| && forall i | 0 <= i < |r| :: r[i] == PairOf(pieces[i])
  {
    seq(|pieces|, i requires 0 <= i < |pieces| => PairOf(pieces[i]))
  }

  /** The entries after putting every pair, in order, into `acc`. */
  function PutAll(acc: Entries, pairs: seq<Option<(string, Field)>>): Entries {
    if pairs == [] then acc
    else
      var prev := PutAll(acc, pairs[..|pairs| - 1]);
      match pairs[|pairs| - 1]
      case Some(kv) => prev[kv.0 := kv.1]
      case None => prev
  }

  /** `parseKeyValuePairs(json, acc)`. */
  function KeyValuePairs(json: string, acc: Entries): Entries {
    PutAll(acc, PairsOf(Split(json, ',')))
  }

  predicate HasKey(pairs: seq<Option<(string, Field)>>, i: int, key: string)
    requires 0 <= i < |pairs|
  {
    pairs[i].Some? && pairs[i].value.0 == key
  }

  /** A key is present exactly when it was there before or some pair names it. */
  lemma {:induction false} PutAllKeys(acc: Entries, pairs: seq<Option<(string, Field)>>, key: string)
    ensures key in PutAll(acc, pairs) <==>
              key in acc || exists i | 0 <= i < |pairs| :: HasKey(pairs, i, key)
  {
    if pairs != [] {
      var init := pairs[..|pairs| - 1];
      PutAllKeys(acc, init, key);
      forall i | 0 <= i < |init|
        ensures HasKey(init, i, key) == HasKey(pairs, i, key)
      {
        assert init[i] == pairs[i];
      }
      if !HasKey(pairs, |pairs| - 1, key) {
        assert key in PutAll(acc, pairs) <==> key in PutAll(acc, init);
        if exists i | 0 <= i < |pairs| :: HasKey(pairs, i, key) {
          var i :| 0 <= i < |pairs| && HasKey(pairs, i, key);
          assert HasKey(init, i, key);
        }
      }
    }
  }

  /** Later pairs overwrite earlier ones: a key holds the value of the last pair naming it. */
  lemma {:induction false} PutAllLastWins(acc: Entries, pairs: seq<Option<(string, Field)>>, j: int)
    requires 0 <= j < |pairs| && pairs[j].Some?
    requires forall i | j < i < |pairs| :: !HasKey(pairs, i, pairs[j].value.0)
    ensures pairs[j].value.0 in PutAll(acc, pairs)
    ensures PutAll(acc, pairs)[pairs[j].value.0] == pairs[j].value.1
  {
    var init := pairs[..|pairs| - 1];
    if j < |pairs| - 1 {
      forall i | j < i < |init|
        ensures !HasKey(init, i, init[j].value.0)
      {
        assert init[i] == pairs[i] && init[j] == pairs[j];
        assert !HasKey(pairs, i, pairs[j].value.0);
      }
      PutAllLastWins(acc, init, j);
      assert !HasKey(pairs, |pairs| - 1, pairs[j].value.0);
    }
  }

  /** A quoted key and an integer written with `%d` are read back as that key and integer. */
  lemma IntPairRoundTrip(key: string, n: int)
    requires IsInt32(n) && ValidKeyText(key)
    ensures PairOf(Quoted(key) + ":" + FormatInt(n)) == Some((key, IntField(n)))
  {
    var digits := FormatInt(n);
    ParseFormatInt(n);
    FormatIntShape(n);
    assert ':' !in digits && digits[0] > ' ' && digits[|digits| - 1] > ' ';
    PieceRoundTrip(key, digits);
    QuotedRemoval(key);
    QuotedRemoval(digits);
  }

  /** A quoted key and a quoted non-numeric text are read back as that key and text. */
  lemma StrPairRoundTrip(key: string, s: string)
    requires ValidKeyText(key) && ValidKeyText(s) && ParseInt(s).None?
    ensures PairOf(Quoted(key) + ":" + Quoted(s)) == Some((key, StrField(s)))
  {
    assert ':' !in Quoted(s) by {
      forall i | 0 <= i < |Quoted(s)|
        ensures Quoted(s)[i] != ':'
      {
        if 0 < i < |Quoted(s)| - 1 {
          assert Quoted(s)[i] == s[i - 1];
        }
      }
    }
    PieceRoundTrip(key, Quoted(s));
    QuotedRemoval(key);
    QuotedRemoval(s);
  }

  /** Text that survives being written in quotes: no quote, colon, comma or brace, no blank. */
  predicate ValidKeyText(s: string) {
    forall i | 0 <= i < |s| :: s[i] > ' ' && s[i] != '"' && s[i] != ':' && s[i] != ',' &&
                               s[i] != '{' && s[i] != '}' && s[i] != '[' && s[i] != ']'
  }

  function Quoted(s: string): string {
    "\"" + s + "\""
  }

  lemma QuotedRemoval(s: string)
    requires forall i | 0 <= i < |s| :: s[i] != '"'
    ensures RemoveChar(Quoted(s), '"') == s
    ensures RemoveChar(s, '"') == s
  {
    RemoveCharAppend("\"" + s, "\"", '"');
    RemoveCharAppend("\"", s, '"');
  }

  lemma {:induction false} RemoveCharAppend(a: string, b: string, c: char)
    ensures RemoveChar(a + b, c) == RemoveChar(a, c) + RemoveChar(b, c)
  {
    if a != [] {
      RemoveCharAppend(a[1..], b, c);
      assert (a + b)[0] == a[0];
      assert (a + b)[1..] == a[1..] + b;
      var head := if a[0] == c then [] else [a[0]];
      calc {
        RemoveChar(a + b, c);
        head + RemoveChar(a[1..] + b, c);
        head + (RemoveChar(a[1..], c) + RemoveChar(b, c));
        (head + RemoveChar(a[1..], c)) + RemoveChar(b, c);
      }
    } else {
      assert a + b == b;
    }
  }

  /** `"key":value` splits into the quoted key and the value, each unchanged by `trim`. */
  lemma PieceRoundTrip(key: string, value: string)
    requires ValidKeyText(key)
    requires value != [] && ':' !in value && value[0] > ' ' && value[|value| - 1] > ' '
    ensures var kv := Split(Trim(Quoted(key) + ":" + value), ':');
            kv == [Quoted(key), value] && Trim(kv[0]) == kv[0] && Trim(kv[1]) == kv[1]
  {
    var piece := Quoted(key) + ":" + value;
    TrimOfTrimmed(piece);
    assert forall i | 0 <= i < |Quoted(key)| :: Quoted(key)[i] != ':' by {
      forall i | 0 <= i < |Quoted(key)|
        ensures Quoted(key)[i] != ':'
      {
        if 0 < i < |Quoted(key)| - 1 {
          assert Quoted(key)[i] == key[i - 1];
        }
      }
    }
    assert piece == Join([Quoted(key), value], ':');
    SplitJoin([Quoted(key), value], ':');
    TrimOfTrimmed(Quoted(key));
    TrimOfTrimmed(value);
  }

  /** One more piece puts its pair, if any, over the entries so far. */
  lemma PutNext(acc: Entries, pieces: seq<string>, i: int)
    requires 0 <= i < |pieces|
    ensures PutAll(acc, PairsOf(pieces[..i + 1])) ==
            match PairOf(pieces[i])
            case Some(kv) => PutAll(acc, PairsOf(pieces[..i]))[kv.0 := kv.1]
            case None => PutAll(acc, PairsOf(pieces[..i]))
  {
    var ps := PairsOf(pieces[..i + 1]);
    assert ps[..i] == PairsOf(pieces[..i]);
  }

  /** The body of the loop in `parseKeyValuePairs`: one piece put into `r`. */
  method PutPiece(r: Entries, piece: string) returns (r': Entries)
    ensures r' == match PairOf(piece)
                  case Some(kv) => r[kv.0 := kv.1]
                  case None => r
  {
    r' := r;
    var pair := Trim(piece);
    var keyValue := Split(pair, ':');
    if |keyValue| == 2 {
      var key := RemoveChar(Trim(keyValue[0]), '"');
      var value := RemoveChar(Trim(keyValue[1]), '"');
      r' := r'[key := StrField(value)];
      var parsed := ParseInt(value);
      if parsed.Some? {
        r' := r'[key := IntField(parsed.value)];
      }
      assert PairOf(piece) == Some((key, FieldOf(value)));
      assert r' == r[key := FieldOf(value)];
    } else {
      assert PairOf(piece) == None;
    }
  }

  /** `parseKeyValuePairs`, filling `result` piece by piece. */
  method ParseKeyValuePairs(json: string, result: Entries) returns (r: Entries)
    ensures r == KeyValuePairs(json, result)
  {
    var pairs := Split(json, ',');
    r := result;
    var i := 0;
    while i < |pairs|
      invariant 0 <= i <= |pairs|
      invariant r == PutAll(result, PairsOf(pairs[..i]))
    {
      PutNext(result, pairs, i);
      r := PutPiece(r, pairs[i]);
      i := i + 1;
    }
    assert pairs[..i] == pairs;
  }

  // ---------------------------------------------------------------------------
  // parseObjectArray

  /** The loop state of `parseObjectArray`: brace depth, the group being collected, the objects so far. */
  datatype Scan = Scan(depth: int, current: string, objects: seq<Entries>)

  /** A group being collected starts with its opening brace. */
  predicate ScanInv(st: Scan) {
    && (st.current == [] || st.current[0] == '{')
    && (st.depth > 0 ==> st.current != [])
  }

  const ScanStart: Scan := Scan(0, [], [])

  /** One character of the loop. A `}` that brings the depth to zero closes a group. */
  function ScanStep(st: Scan, c: char): (r: Scan)
    requires ScanInv(st)
    ensures ScanInv(r)
  {
    var depth := if c == '{' then st.depth + 1 else if c == '}' then st.depth - 1 else st.depth;
    if c == '}' && depth == 0 then
      var group := st.current + [c];
      TrimOfTrimmed(group);
      var objStr := Trim(group);
      Scan(depth, [], st.objects + [KeyValuePairs(objStr[1..|objStr| - 1], map[])])
    else
      var cur := if depth > 0 || c == '{' then st.current + [c] else st.current;
      Scan(depth, cur, st.objects)
  }

  function ScanFrom(st: Scan, s: string): (r: Scan)
    requires ScanInv(st)
    ensures ScanInv(r)
  {
    if s == [] then st else ScanStep(ScanFrom(st, s[..|s| - 1]), s[|s| - 1])
  }

  /** `parseObjectArray(s)`. */
  function ObjectArray(s: string): seq<Entries> {
    ScanFrom(ScanStart, s).objects
  }

  lemma {:induction false} ScanConcat(st: Scan, a: string, b: string)
    requires ScanInv(st)
    ensures ScanFrom(st, a + b) == ScanFrom(ScanFrom(st, a), b)
  {
    if b == [] {
      assert a + b == a;
    } else {
      ScanConcat(st, a, b[..|b| - 1]);
      assert (a + b)[..|a + b| - 1] == a + b[..|b| - 1];
    }
  }

  predicate NoBraces(s: string) {
    forall i | 0 <= i < |s| :: s[i] != '{' && s[i] != '}'
  }

  /** Text outside any group is ignored. */
  lemma {:induction false} ScanOutside(objects: seq<Entries>, s: string)
    requires NoBraces(s)
    ensures ScanFrom(Scan(0, [], objects), s) == Scan(0, [], objects)
  {
    if s != [] {
      ScanOutside(objects, s[..|s| - 1]);
    }
  }

  /** Inside a group, brace-free text is collected. */
  lemma {:induction false} ScanInside(objects: seq<Entries>, pre: string, s: string)
    requires NoBraces(s)
    ensures ScanFrom(Scan(1, "{" + pre, objects), s) == Scan(1, "{" + pre + s, objects)
  {
    if s != [] {
      ScanInside(objects, pre, s[..|s| - 1]);
      assert "{" + pre + s[..|s| - 1] + [s[|s| - 1]] == "{" + pre + s;
    }
  }

  function Braced(body: string): string {
    "{" + body + "}"
  }

  /** A flat group `{body}` adds the entries of `body`. */
  lemma ScanGroup(objects: seq<Entries>, body: string)
    requires NoBraces(body)
    ensures ScanFrom(Scan(0, [], objects), Braced(body)) ==
            Scan(0, [], objects + [KeyValuePairs(body, map[])])
  {
    var st := Scan(0, [], objects);
    ScanConcat(st, "{", body + "}");
    assert Braced(body) == "{" + (body + "}");
    assert ScanFrom(st, "{") == Scan(1, "{", objects) by {
      assert "{"[..0] == [];
    }
    ScanConcat(Scan(1, "{", objects), body, "}");
    ScanInside(objects, [], body);
    assert "{" + [] + body == "{" + body;
    var group := "{" + body + "}";
    assert group[1..|group| - 1] == body;
    TrimOfTrimmed(group);
  }

  /** Flat groups separated by commas, as an NPC file writes its array. */
  function GroupsText(bodies: seq<string>): string {
    if bodies == [] then []
    else if |bodies| == 1 then Braced(bodies[0])
    else GroupsText(bodies[..|bodies| - 1]) + "," + Braced(bodies[|bodies| - 1])
  }

  /** The entries of each body, in order. */
  function EntriesOf(bodies: seq<string>): (r: seq<Entries>)
    ensures |r| == |bodies|
    ensures forall i | 0 <= i < |bodies| :: r[i] == KeyValuePairs(bodies[i], map[])
  {
    if bodies == [] then []
    else EntriesOf(bodies[..|bodies| - 1]) + [KeyValuePairs(bodies[|bodies| - 1], map[])]
  }

  /** `parseObjectArray` reads one object per flat group, in order. */
  lemma {:induction false} ObjectArrayOfGroups(bodies: seq<string>)
    requires forall i | 0 <= i < |bodies| :: NoBraces(bodies[i])
    ensures ObjectArray(GroupsText(bodies)) == EntriesOf(bodies)
  {
    ScanGroups(bodies);
  }

  lemma {:induction false} ScanGroups(bodies: seq<string>)
    requires forall i | 0 <= i < |bodies| :: NoBraces(bodies[i])
    ensures ScanFrom(ScanStart, GroupsText(bodies)) == Scan(0, [], EntriesOf(bodies))
  {
    if |bodies| == 1 {
      ScanGroup([], bodies[0]);
      assert EntriesOf(bodies) == [] + [KeyValuePairs(bodies[0], map[])];
    } else if |bodies| > 1 {
      var init := bodies[..|bodies| - 1];
      ScanGroups(init);
      ScanNextGroup(GroupsText(init), EntriesOf(init), bodies[|bodies| - 1]);
      GroupsTextLast(bodies);
    }
  }

  lemma GroupsTextLast(bodies: seq<string>)
    requires |bodies| > 1
    ensures GroupsText(bodies) == GroupsText(bodies[..|bodies| - 1]) + ("," + Braced(bodies[|bodies| - 1]))
    ensures EntriesOf(bodies) == EntriesOf(bodies[..|bodies| - 1]) + [KeyValuePairs(bodies[|bodies| - 1], map[])]
  {
  }

  /** A comma and one more flat group after text that left the scanner between groups. */
  lemma ScanNextGroup(text: string, objects: seq<Entries>, body: string)
    requires NoBraces(body) && ScanFrom(ScanStart, text) == Scan(0, [], objects)
    ensures ScanFrom(ScanStart, text + ("," + Braced(body))) == Scan(0, [], objects + [KeyValuePairs(body, map[])])
  {
    ScanConcat(ScanStart, text, "," + Braced(body));
    ScanConcat(Scan(0, [], objects), ",", Braced(body));
    ScanOutside(objects, ",");
    ScanGroup(objects, body);
  }

  /** `parseObjectArray`, the character loop with its brace counter and group buffer. */
  method ParseObjectArray(arrayContent: string) returns (result: seq<Entries>)
    ensures result == ObjectArray(arrayContent)
  {
    result := [];
    var bracketCount := 0;
    var currentObject := "";
    var i := 0;
    while i < |arrayContent|
      invariant 0 <= i <= |arrayContent|
      invariant Scan(bracketCount, currentObject, result) == ScanFrom(ScanStart, arrayContent[..i])
    {
      assert arrayContent[..i + 1][..i] == arrayContent[..i];
      var c := arrayContent[i];
      var closed := false;
      if c == '{' {
        bracketCount := bracketCount + 1;
      } else if c == '}' {
        bracketCount := bracketCount - 1;
        if bracketCount == 0 {
          currentObject := currentObject + [c];
          TrimOfTrimmed(currentObject);
          var objStr := Trim(currentObject);
          var obj := ParseKeyValuePairs(objStr[1..|objStr| - 1], map[]);
          result := result + [obj];
          currentObject := "";
          closed := true;
        }
      }
      if !closed && (bracketCount > 0 || c == '{') {
        currentObject := currentObject + [c];
      }
      i := i + 1;
    }
    assert arrayContent[..i] == arrayContent;
  }

  // ---------------------------------------------------------------------------
  // parseJSON

  /**
    `parseJSON`: `None` where the code throws. A text that (trimmed) is only "{" makes
    `substring(1, 0)` throw, and so does a `]` before the first `[`.
  */
  function ParsedJSON(json: string): Option<Parsed> {
    var t := Trim(json);
    if !StartsWith(t, "{") then Some(Plain(map[]))
    else if |t| < 2 then None
    else
      var inner := Trim(t[1..|t| - 1]);
      if Contains(inner, "\"npcs\"") then NpcsPart(inner)
      else Some(Plain(KeyValuePairs(inner, map[])))
  }

  /** The branch of `parseJSON` for an object that mentions `"npcs"`. */
  function NpcsPart(inner: string): Option<Parsed> {
    var startArray := IndexOf(inner, '[');
    var endArray := LastIndexOf(inner, ']');
    if startArray == -1 || endArray == -1 then Some(Plain(map[]))
    else if endArray < startArray + 1 then None
    else Some(NpcList(ObjectArray(Trim(inner[startArray + 1..endArray]))))
  }

  /** Text that does not start with `{` once trimmed parses to nothing, without error. */
  lemma NotAnObject(json: string)
    requires !StartsWith(Trim(json), "{")
    ensures ParsedJSON(json) == Some(Plain(map[]))
  {
  }

  /**
    An NPC list is produced only when `"npcs"` occurs, and then it holds the groups between
    the first `[` and the last `]`; with either bracket missing the result is empty.
  */
  lemma NpcListOnlyFromArray(json: string)
    ensures ParsedJSON(json).Some? && ParsedJSON(json).value.NpcList? ==>
              var t := Trim(json);
              && StartsWith(t, "{") && |t| >= 2
              && var inner := Trim(t[1..|t| - 1]);
                 && Contains(inner, "\"npcs\"")
                 && 0 <= IndexOf(inner, '[') < LastIndexOf(inner, ']')
                 && ParsedJSON(json).value.objects ==
                    ObjectArray(Trim(inner[IndexOf(inner, '[') + 1..LastIndexOf(inner, ']')]))
    ensures var t := Trim(json);
            StartsWith(t, "{") && |t| >= 2 && Contains(Trim(t[1..|t| - 1]), "\"npcs\"") &&
            (IndexOf(Trim(t[1..|t| - 1]), '[') == -1 || LastIndexOf(Trim(t[1..|t| - 1]), ']') == -1) ==>
              ParsedJSON(json) == Some(Plain(map[]))
  {
  }

  /** `parseJSON`, calling the two loops. */
  method ParseJSON(json: string) returns (r: Option<Parsed>)
    ensures r == ParsedJSON(json)
  {
    var t := Trim(json);
    if !StartsWith(t, "{") {
      return Some(Plain(map[]));
    }
    if |t| < 2 {
      return None;
    }
    var inner := Trim(t[1..|t| - 1]);
    assert ParsedJSON(json) == if Contains(inner, "\"npcs\"") then NpcsPart(inner) else Some(Plain(KeyValuePairs(inner, map[])));
    if Contains(inner, "\"npcs\"") {
      var startArray := IndexOf(inner, '[');
      var endArray := LastIndexOf(inner, ']');
      if startArray != -1 && endArray != -1 {
        if endArray < startArray + 1 {
          return None;
        }
        var objects := ParseObjectArray(Trim(inner[startArray + 1..endArray]));
        r := Some(NpcList(objects));
      } else {
        r := Some(Plain(map[]));
      }
    } else {
      var entries := ParseKeyValuePairs(inner, map[]);
      r := Some(Plain(entries));
    }
  }

  // ---------------------------------------------------------------------------
  // createNPCFromMap and loadNPCsFromMap

  /** The arguments of one `new NPC(id, x, y, type, behavior)`. */
  datatype NpcSeed = NpcSeed(id: int, x: int, y: int, npcType: Option<string>, behavior: NPCBehavior)

  /** `NPCBehavior.valueOf`: the exact constant name. */
  function BehaviorNamed(name: string): (r: Option<NPCBehavior>)
    ensures r == Some(STATIONARY) <==> name == "STATIONARY"
    ensures r == Some(WANDER) <==> name == "WANDER"
    ensures r == Some(FOLLOW_PATH) <==> name == "FOLLOW_PATH"
  {
    if name == "STATIONARY" then Some(STATIONARY)
    else if name == "WANDER" then Some(WANDER)
    else if name == "FOLLOW_PATH" then Some(FOLLOW_PATH)
    else None
  }

  function BehaviorName(b: NPCBehavior): string {
    match b
    case STATIONARY => "STATIONARY"
    case WANDER => "WANDER"
    case FOLLOW_PATH => "FOLLOW_PATH"
  }

  /**
    `createNPCFromMap`: `None` (the caught exception) unless id, x and y are integers, the
    type is absent or a text, and the behaviour is a text naming a behaviour in any case.
  */
  function CreateNPCFromMap(m: Entries): (r: Option<NpcSeed>)
    ensures r.Some? ==>
              && "id" in m && m["id"] == IntField(r.value.id)
              && "x" in m && m["x"] == IntField(r.value.x)
              && "y" in m && m["y"] == IntField(r.value.y)
              && ("type" in m <==> r.value.npcType.Some?)
              && ("type" in m ==> m["type"] == StrField(r.value.npcType.value))
              && "behavior" in m && m["behavior"].StrField?
              && ToUpperCase(m["behavior"].s) == BehaviorName(r.value.behavior)
  {
    if "id" !in m || !m["id"].IntField? then None
    else if "x" !in m || !m["x"].IntField? then None
    else if "y" !in m || !m["y"].IntField? then None
    else if "type" in m && !m["type"].StrField? then None
    else if "behavior" !in m || !m["behavior"].StrField? then None
    else
      match BehaviorNamed(ToUpperCase(m["behavior"].s))
      case None => None
      case Some(b) =>
        Some(NpcSeed(m["id"].n, m["x"].n, m["y"].n,
                     if "type" in m then Some(m["type"].s) else None, b))
  }

  /** The entries an NPC file gives for `seed`. */
  function SeedEntries(seed: NpcSeed): Entries {
    var base := map["id" := IntField(seed.id), "x" := IntField(seed.x), "y" := IntField(seed.y),
                    "behavior" := StrField(BehaviorName(seed.behavior))];
    match seed.npcType
    case Some(t) => base["type" := StrField(t)]
    case None => base
  }

  /** `createNPCFromMap` gives back the NPC whose entries it reads. */
  lemma CreateFromSeedEntries(seed: NpcSeed)
    ensures CreateNPCFromMap(SeedEntries(seed)) == Some(seed)
  {
    var m := SeedEntries(seed);
    BehaviorNameReads(seed.behavior);
    assert "id" in m && m["id"] == IntField(seed.id);
    assert "x" in m && m["x"] == IntField(seed.x);
    assert "y" in m && m["y"] == IntField(seed.y);
    assert "behavior" in m && m["behavior"] == StrField(BehaviorName(seed.behavior));
    assert "type" in m <==> seed.npcType.Some?;
    assert seed.npcType.Some? ==> m["type"] == StrField(seed.npcType.value);
  }

  /** A behaviour's own name is upper case and names it. */
  lemma BehaviorNameReads(b: NPCBehavior)
    ensures BehaviorNamed(ToUpperCase(BehaviorName(b))) == Some(b)
  {
    var name := BehaviorName(b);
    assert forall i | 0 <= i < |name| :: !('a' <= name[i] <= 'z');
    NoLowerUpper(name);
  }

  lemma NoLowerUpper(s: string)
    requires forall i | 0 <= i < |s| :: !('a' <= s[i] <= 'z')
    ensures ToUpperCase(s) == s
  {
    assert forall i | 0 <= i < |s| :: ToUpperCase(s)[i] == s[i];
  }

  /** The NPCs of a list of objects, the unusable ones dropped, in order. */
  function SeedsOf(objects: seq<Entries>): (r: seq<NpcSeed>)
    ensures |r| <= |objects|
  {
    if objects == [] then []
    else
      var prev := SeedsOf(objects[..|objects| - 1]);
      match CreateNPCFromMap(objects[|objects| - 1])
      case Some(seed) => prev + [seed]
      case None => prev
  }

  /**
    `loadNPCsFromMap` on the file's text: the NPCs of the "npcs" list; nothing for a
    missing file, for text that makes `parseJSON` throw, or for plain entries (where
    the missing list is null, or a value under the key `npcs` fails the cast).
  */
  function LoadedSeeds(contents: Option<string>): seq<NpcSeed> {
    match contents
    case None => []
    case Some(json) =>
      match ParsedJSON(json)
      case Some(NpcList(objects)) => SeedsOf(objects)
      case _ => []
  }

  /** Only an "npcs" list yields NPCs, and every NPC comes from one of its objects. */
  lemma {:induction false} LoadedSeedsFromObjects(objects: seq<Entries>, k: int)
    requires 0 <= k < |SeedsOf(objects)|
    ensures exists i | 0 <= i < |objects| :: CreateNPCFromMap(objects[i]) == Some(SeedsOf(objects)[k])
  {
    var init := objects[..|objects| - 1];
    if k < |SeedsOf(init)| {
      LoadedSeedsFromObjects(init, k);
      var i :| 0 <= i < |init| && CreateNPCFromMap(init[i]) == Some(SeedsOf(init)[k]);
      assert objects[i] == init[i];
    } else {
      assert CreateNPCFromMap(objects[|objects| - 1]) == Some(SeedsOf(objects)[k]);
    }
  }

  /** The objects an NPC file lists for `seeds`, one per NPC, in order. */
  function SeedObjects(seeds: seq<NpcSeed>): (r: seq<Entries>)
    ensures |r| == |seeds|
  {
    if seeds == [] then [] else SeedObjects(seeds[..|seeds| - 1]) + [SeedEntries(seeds[|seeds| - 1])]
  }

  lemma SeedsOfSnoc(objects: seq<Entries>, o: Entries, seed: NpcSeed)
    requires CreateNPCFromMap(o) == Some(seed)
    ensures SeedsOf(objects + [o]) == SeedsOf(objects) + [seed]
  {
    assert (objects + [o])[..|objects|] == objects;
  }

  /** Objects that all describe NPCs yield those NPCs, in order. */
  lemma {:induction false} SeedsOfAllUsable(seeds: seq<NpcSeed>)
    ensures SeedsOf(SeedObjects(seeds)) == seeds
  {
    if seeds != [] {
      var init := seeds[..|seeds| - 1];
      var last := seeds[|seeds| - 1];
      SeedsOfAllUsable(init);
      CreateFromSeedEntries(last);
      SeedsOfSnoc(SeedObjects(init), SeedEntries(last), last);
      assert SeedObjects(seeds) == SeedObjects(init) + [SeedEntries(last)];
      assert seeds == init + [last];
    }
  }

  /** `loadNPCsFromMap`: builds one NPC per usable object. */
  method LoadNPCsFromMap(contents: Option<string>) returns (npcs: seq<NPC>)
    ensures var seeds := LoadedSeeds(contents);
            && |npcs| == |seeds|
            && forall i | 0 <= i < |npcs| ::
                 fresh(npcs[i]) &&
                 npcs[i].View() == NewNpc(seeds[i].id, seeds[i].x, seeds[i].y, seeds[i].npcType, seeds[i].behavior)
  {
    npcs := [];
    if contents.None? {
      return;
    }
    var mapData := ParseJSON(contents.value);
    if mapData.None? || !mapData.value.NpcList? {
      return;
    }
    var seeds := SeedsOf(mapData.value.objects);
    var i := 0;
    while i < |seeds|
      invariant 0 <= i <= |seeds| && |npcs| == i
      invariant forall k | 0 <= k < i ::
                  fresh(npcs[k]) &&
                  npcs[k].View() == NewNpc(seeds[k].id, seeds[k].x, seeds[k].y, seeds[k].npcType, seeds[k].behavior)
    {
      var npc := new NPC(seeds[i].id, seeds[i].x, seeds[i].y, seeds[i].npcType, seeds[i].behavior);
      npcs := npcs + [npc];
      i := i + 1;
    }
  }

  /** `loadNPC`: the first NPC of the file, if any. */
  method LoadNPC(contents: Option<string>) returns (npc: Option<NPC>)
    ensures var seeds := LoadedSeeds(contents);
            && (seeds == [] <==> npc.None?)
            && (npc.Some? ==>
                  && fresh(npc.value)
                  && npc.value.View() == NewNpc(seeds[0].id, seeds[0].x, seeds[0].y, seeds[0].npcType, seeds[0].behavior))
  {
    var npcs := LoadNPCsFromMap(contents);
    if npcs != [] {
      return Some(npcs[0]);
    }
    return None;
  }
}
