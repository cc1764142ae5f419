/**
  The game-state line the server broadcasts and the client takes apart.

  The server writes one record per player, `P,id,x,y,direction,sprite,moving`, then one
  per NPC, `N,id,x,y,direction,sprite,moving,type`, and joins the records with commas.
  The client splits the line on commas and walks the fields: a record needs seven
  fields (eight for an NPC); the integers are read before the tag is looked at, so a
  bad number in any record aborts the walk; an unknown tag skips seven fields.
*/
module Snapshot {
  import opened Wrappers
  import opened JavaText

  datatype Record =
    | PlayerRecord(id: int, x: int, y: int, direction: string, sprite: int, moving: bool)
    | NpcRecord(id: int, x: int, y: int, direction: string, sprite: int, moving: bool, npcType: string)

  /** `%s` of a possibly-null NPC type. */
  function TypeText(npcType: Option<string>): string {
    match npcType
    case Some(t) => t
    case None => "null"
  }

  /** The fields one `String.format` call writes, comma-free pieces of a record. */
  function Fields(r: Record): (fs: seq<string>)
    ensures |fs| == (if r.PlayerRecord? then 7 else 8)
    ensures fs[0] == (if r.PlayerRecord? then "P" else "N")
  {
    match r
    case PlayerRecord(id, x, y, d, s, m) =>
      ["P", FormatInt(id), FormatInt(x), FormatInt(y), d, FormatInt(s), FormatBool(m)]
    case NpcRecord(id, x, y, d, s, m, t) =>
      ["N", FormatInt(id), FormatInt(x), FormatInt(y), d, FormatInt(s), FormatBool(m), t]
  }

  /** The text of one record. */
  function RecordText(r: Record): string {
    Join(Fields(r), ',')
  }

  function Texts(rs: seq<Record>): (ts: seq<string>)
    ensures |ts| == |rs|
  {
    if rs == [] then [] else [RecordText(rs[0])] + Texts(rs[1..])
  }

  lemma {:induction false} TextsAppend(rs: seq<Record>, r: Record)
    ensures Texts(rs + [r]) == Texts(rs) + [RecordText(r)]
  {
    if rs == [] {
      assert Texts([r]) == [RecordText(r)] + Texts([]);
    } else {
      assert (rs + [r])[1..] == rs[1..] + [r];
      TextsAppend(rs[1..], r);
    }
  }

  /** `String.join(",", states)`: the broadcast line. */
  function Encode(rs: seq<Record>): string {
    Join(Texts(rs), ',')
  }

  /** All fields of all records, in order. */
  function FieldsOf(rs: seq<Record>): seq<string> {
    if rs == [] then [] else Fields(rs[0]) + FieldsOf(rs[1..])
  }

  /** The broadcast line is the fields of all records joined by commas. */
  lemma {:induction false} EncodeIsJoinOfFields(rs: seq<Record>)
    ensures Encode(rs) == Join(FieldsOf(rs), ',')
  {
    if |rs| == 1 {
      assert FieldsOf(rs) == Fields(rs[0]) + [];
      assert Fields(rs[0]) + [] == Fields(rs[0]);
    } else if |rs| > 1 {
      EncodeIsJoinOfFields(rs[1..]);
      assert Texts(rs)[1..] == Texts(rs[1..]);
      assert FieldsOf(rs[1..]) != [] by {
        assert |FieldsOf(rs[1..])| >= |Fields(rs[1])|;
      }
      JoinAppend(Fields(rs[0]), FieldsOf(rs[1..]), ',');
    }
  }

  /** The outcome of the client's walk: the records read, and whether the walk ran to the end. */
  datatype Decoded = Decoded(records: seq<Record>, complete: bool)

  function Prepend(r: Record, d: Decoded): Decoded {
    Decoded([r] + d.records, d.complete)
  }

  /**
    The client's walk over the fields of one line: stop at fewer than seven fields left
    (or fewer than eight for an NPC); give up on a field that is not a 32-bit integer.
  */
  function Decode(f: seq<string>): Decoded
    decreases |f|
  {
    if |f| <= 6 then Decoded([], true)
    else
      var id := ParseInt(f[1]);
      var x := ParseInt(f[2]);
      var y := ParseInt(f[3]);
      var s := ParseInt(f[5]);
      if id.None? || x.None? || y.None? || s.None? then Decoded([], false)
      else if f[0] == "P" then
        Prepend(PlayerRecord(id.value, x.value, y.value, f[4], s.value, ParseBoolean(f[6])), Decode(f[7..]))
      else if f[0] == "N" then
        if |f| <= 7 then Decoded([], true)
        else Prepend(NpcRecord(id.value, x.value, y.value, f[4], s.value, ParseBoolean(f[6]), f[7]), Decode(f[8..]))
      else Decode(f[7..])
  }

  /** What the client takes from one broadcast line. */
  function DecodeLine(message: string): Decoded {
    Decode(Split(message, ','))
  }

  /** A record the line carries unchanged: 32-bit numbers and no comma inside a text field. */
  predicate WellFormed(r: Record) {
    && IsInt32(r.id) && IsInt32(r.x) && IsInt32(r.y) && IsInt32(r.sprite)
    && ',' !in r.direction
    && (r.NpcRecord? ==> ',' !in r.npcType)
  }

  predicate AllWellFormed(rs: seq<Record>) {
    forall i :: 0 <= i < |rs| ==> WellFormed(rs[i])
  }

  /** The line does not end in an empty field, which `split` would drop. */
  predicate EndsNonEmpty(rs: seq<Record>) {
    rs != [] ==> (rs[|rs| - 1].NpcRecord? ==> rs[|rs| - 1].npcType != "")
  }

  lemma FieldsNoComma(r: Record)
    requires WellFormed(r)
    ensures NoSeparator(Fields(r), ',')
  {
    FormatIntShape(r.id);
    FormatIntShape(r.x);
    FormatIntShape(r.y);
    FormatIntShape(r.sprite);
  }

  lemma {:induction false} FieldsOfShape(rs: seq<Record>)
    requires AllWellFormed(rs)
    ensures NoSeparator(FieldsOf(rs), ',')
    ensures |FieldsOf(rs)| >= 7 * |rs|
    ensures rs != [] && EndsNonEmpty(rs) ==> FieldsOf(rs)[|FieldsOf(rs)| - 1] != []
  {
    if rs != [] {
      FieldsNoComma(rs[0]);
      FieldsOfShape(rs[1..]);
      if |rs| == 1 {
        assert FieldsOf(rs) == Fields(rs[0]) + [];
      } else {
        assert rs[1..][|rs| - 2] == rs[|rs| - 1];
      }
      var f := FieldsOf(rs);
      forall i | 0 <= i < |f|
        ensures ',' !in f[i]
      {
        if i >= |Fields(rs[0])| {
          assert f[i] == FieldsOf(rs[1..])[i - |Fields(rs[0])|];
        }
      }
    }
  }

  /** The walk reads one well-formed record off the front of the fields. */
  lemma DecodeHead(r: Record, rest: seq<string>)
    requires WellFormed(r)
    ensures Decode(Fields(r) + rest) == Prepend(r, Decode(rest))
  {
    var fs := Fields(r);
    var f := fs + rest;
    assert f[..|fs|] == fs && f[|fs|..] == rest;
    ParseFormatInt(r.id);
    ParseFormatInt(r.x);
    ParseFormatInt(r.y);
    ParseFormatInt(r.sprite);
    ParseFormatBool(r.moving);
    HeadFields(r, f);
  }

  /** The fields a well-formed record writes read back as its own values. */
  lemma HeadFields(r: Record, f: seq<string>)
    requires |f| >= |Fields(r)| && f[..|Fields(r)|] == Fields(r)
    requires ParseInt(FormatInt(r.id)) == Some(r.id) && ParseInt(FormatInt(r.x)) == Some(r.x)
    requires ParseInt(FormatInt(r.y)) == Some(r.y) && ParseInt(FormatInt(r.sprite)) == Some(r.sprite)
    requires ParseBoolean(FormatBool(r.moving)) == r.moving
    ensures Decode(f) == Prepend(r, Decode(f[|Fields(r)|..]))
  {
    var fs := Fields(r);
    assert f[0] == fs[0] && f[1] == fs[1] && f[2] == fs[2] && f[3] == fs[3];
    assert f[4] == fs[4] && f[5] == fs[5] && f[6] == fs[6];
    if r.NpcRecord? {
      assert f[7] == fs[7];
    }
  }

  lemma ConsAppend<T>(s: seq<T>, t: seq<T>)
    requires s != []
    ensures [s[0]] + (s[1..] + t) == s + t
  {
  }

  /** The walk over the fields of well-formed records reads back exactly those records, then goes on. */
  lemma {:induction false} DecodeFieldsThen(rs: seq<Record>, g: seq<string>)
    requires AllWellFormed(rs)
    ensures Decode(FieldsOf(rs) + g) == Decoded(rs + Decode(g).records, Decode(g).complete)
  {
    if rs != [] {
      DecodeFieldsThen(rs[1..], g);
      assert FieldsOf(rs) + g == Fields(rs[0]) + (FieldsOf(rs[1..]) + g);
      DecodeHead(rs[0], FieldsOf(rs[1..]) + g);
      ConsAppend(rs, Decode(g).records);
    } else {
      assert FieldsOf(rs) + g == g;
      assert rs + Decode(g).records == Decode(g).records;
    }
  }

  /**
    The client reads back every record the server wrote, as long as the numbers fit in
    32 bits, no text field holds a comma and the line does not end in an empty NPC type.
  */
  lemma RoundTrip(rs: seq<Record>)
    requires AllWellFormed(rs) && EndsNonEmpty(rs)
    ensures DecodeLine(Encode(rs)) == Decoded(rs, true)
  {
    EncodeIsJoinOfFields(rs);
    FieldsOfShape(rs);
    DecodeFieldsThen(rs, []);
    assert FieldsOf(rs) + [] == FieldsOf(rs) && rs + [] == rs;
    if rs == [] {
      assert Encode(rs) == [];
      assert Split([], ',') == [[]];
    } else {
      SplitJoin(FieldsOf(rs), ',');
    }
  }

  lemma {:induction false} FieldsOfAppend(rs: seq<Record>, r: Record)
    ensures FieldsOf(rs + [r]) == FieldsOf(rs) + Fields(r)
  {
    if rs == [] {
      assert FieldsOf([r]) == Fields(r) + FieldsOf([]);
    } else {
      assert (rs + [r])[1..] == rs[1..] + [r];
      FieldsOfAppend(rs[1..], r);
    }
  }

  /** `split` drops one empty last piece when the piece before it is not empty. */
  lemma SplitDropsEmptyLast(fs: seq<string>, sep: char)
    requires |fs| >= 2 && NoSeparator(fs, sep)
    requires fs[|fs| - 1] == [] && fs[|fs| - 2] != []
    ensures Split(Join(fs, sep), sep) == fs[..|fs| - 1]
  {
    JoinHasSeparator(fs, sep);
    SplitAllJoin(fs, sep);
    var init := fs[..|fs| - 1];
    assert init[|init| - 1] == fs[|fs| - 2];
    assert DropTrailingEmpty(init) == init;
    assert DropTrailingEmpty(fs) == DropTrailingEmpty(init);
  }

  /** Seven fields of an NPC record are a complete walk that reads nothing. */
  lemma DecodeNpcWithoutType(n: Record)
    requires WellFormed(n) && n.NpcRecord?
    ensures Decode(Fields(n)[..7]) == Decoded([], true)
  {
    var g := ["N", FormatInt(n.id), FormatInt(n.x), FormatInt(n.y), n.direction,
              FormatInt(n.sprite), FormatBool(n.moving)];
    assert Fields(n)[..7] == g;
    ParseFormatInt(n.id);
    ParseFormatInt(n.x);
    ParseFormatInt(n.y);
    ParseFormatInt(n.sprite);
    assert Decode(g) == Decoded([], true);
  }

  /**
    An NPC with an empty type at the end of the line is lost, and the walk still counts
    as complete: `split` drops the empty last field, leaving seven fields for an NPC.
  */
  lemma TrailingEmptyTypeLost(rs: seq<Record>, n: Record)
    requires AllWellFormed(rs) && WellFormed(n)
    requires n.NpcRecord? && n.npcType == ""
    ensures DecodeLine(Encode(rs + [n])) == Decoded(rs, true)
  {
    var all := rs + [n];
    assert AllWellFormed(all) by {
      forall i | 0 <= i < |all|
        ensures WellFormed(all[i])
      {
        if i < |rs| {
          assert all[i] == rs[i];
        }
      }
    }
    EncodeIsJoinOfFields(all);
    FieldsOfShape(all);
    FieldsOfAppend(rs, n);
    var f := FieldsOf(rs) + Fields(n);
    var g := Fields(n)[..7];
    assert f[..|f| - 1] == FieldsOf(rs) + g;
    assert f[|f| - 2] == FormatBool(n.moving);
    SplitDropsEmptyLast(f, ',');
    DecodeFieldsThen(rs, g);
    DecodeNpcWithoutType(n);
    assert rs + [] == rs;
  }

  /** A broadcast line never starts with the greeting the client prints and ignores. */
  lemma EncodeIsNoGreeting(rs: seq<Record>)
    ensures !StartsWith(Encode(rs), "Jogador")
  {
    if rs != [] {
      EncodeIsJoinOfFields(rs);
      var f := FieldsOf(rs);
      assert f == Fields(rs[0]) + FieldsOf(rs[1..]);
      assert Join(f, ',')[0] == f[0][0];
    }
  }
}
