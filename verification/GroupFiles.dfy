/**
 The JSON of one profile-group file: what it decodes to, in the terms of its fields alone, and what is
 written back. Old files embed whole profiles, whose ids stand in for the missing list of references.
 */
module GroupFiles {
  import opened Wrappers
  import opened LegacyRules
  import opened LegacyJson

  /** A priority fits 32 bits. */
  type Priority = n: int | -0x8000_0000 <= n < 0x8000_0000

  datatype ProfileGroup =
    ProfileGroup(id: string, name: string, childrenIds: seq<string>, priorities: map<string, Priority>)

  // ---- decoding

  /** A field of a group, which may be an object or the array of its fields in order. */
  function Field(json: Json, name: string, at: nat): Option<Json> {
    if json.Arr? && 2 <= |json.items| <= 5 then (if at < |json.items| then Some(json.items[at]) else None)
    else json.Get(name)
  }

  function Embedded(json: Json): Json {
    Field(json, "children", 3).GetOr(Arr([]))
  }

  predicate HasChildren(json: Json) {
    Embedded(json).Items() != []
  }

  /** The ids of embedded profiles, when all of them decode. */
  function ChildIds(items: seq<Json>, profileId: Json -> Option<string>): Option<seq<string>> {
    if items == [] then Some([])
    else
      match (ChildIds(items[..|items| - 1], profileId), profileId(items[|items| - 1]))
      case (Some(before), Some(id)) => Some(before + [id])
      case _ => None
  }

  function DecodePriorities(j: Json): Option<map<string, Priority>> {
    if j.Obj? && forall k :: k in j.fields ==> IsPriority(j.fields[k])
    then Some(map k | k in j.fields :: j.fields[k].n)
    else None
  }

  predicate IsPriority(j: Json) {
    j.Num? && -0x8000_0000 <= j.n < 0x8000_0000
  }

  /** Decoding, with `normalize_legacy`: ids of embedded profiles stand in for missing `childrenIds`. */
  function GroupOf(json: Json, profileId: Json -> Option<string>): Option<ProfileGroup> {
    match (Field(json, "id", 0), Field(json, "name", 1),
           DecodeStrings(Field(json, "childrenIds", 2).GetOr(Arr([]))),
           DecodePriorities(Field(json, "priorities", 4).GetOr(Obj(map[]))))
    case (Some(Str(id)), Some(Str(name)), Some(ids), Some(priorities)) =>
      if !Embedded(json).Arr? then None
      else
        (match ChildIds(Embedded(json).items, profileId)
         case Some(children) => Some(ProfileGroup(id, name, if ids == [] then children else ids, priorities))
         case None => None)
    case _ => None
  }

  // ---- what a file says

  /** The value is an array of embedded profiles, and these are their ids in order. */
  predicate EmbedsIds(v: Json, profileId: Json -> Option<string>, ids: seq<string>) {
    v.Arr? && |v.items| == |ids| && forall i :: 0 <= i < |ids| ==> profileId(v.items[i]) == Some(ids[i])
  }

  /** The value is an object of exactly these numbers. */
  predicate AreNumbers(v: Json, numbers: map<string, int>) {
    v.Obj? && v.fields.Keys == numbers.Keys && forall k :: k in numbers ==> v.fields[k] == Num(numbers[k])
  }

  /** The object's fields are those of a group; `stored` are its own references, `embedded` those of its embedded
      profiles. Fields other than `id` and `name` may be missing. */
  predicate ObjectSays(v: Json, profileId: Json -> Option<string>, g: ProfileGroup, stored: seq<string>,
                       embedded: seq<string>) {
    && v.Obj? && "id" in v.fields && v.fields["id"] == Str(g.id) && "name" in v.fields &&
       v.fields["name"] == Str(g.name)
    && (if "childrenIds" in v.fields then AreStrings(v.fields["childrenIds"], stored) else stored == [])
    && (if "children" in v.fields then EmbedsIds(v.fields["children"], profileId, embedded) else embedded == [])
    && (if "priorities" in v.fields then AreNumbers(v.fields["priorities"], g.priorities) else g.priorities == map[])
  }

  /** The same for a group that is the array of its fields, of which the last three may be missing. */
  predicate ArraySays(v: Json, profileId: Json -> Option<string>, g: ProfileGroup, stored: seq<string>,
                      embedded: seq<string>) {
    && v.Arr? && 2 <= |v.items| <= 5 && v.items[0] == Str(g.id) && v.items[1] == Str(g.name)
    && (if |v.items| > 2 then AreStrings(v.items[2], stored) else stored == [])
    && (if |v.items| > 3 then EmbedsIds(v.items[3], profileId, embedded) else embedded == [])
    && (if |v.items| > 4 then AreNumbers(v.items[4], g.priorities) else g.priorities == map[])
  }

  /** The file is the group `g`: the references are the stored ones, or the embedded ones when there are none. */
  ghost predicate IsGroup(v: Json, profileId: Json -> Option<string>, g: ProfileGroup) {
    exists stored: seq<string>, embedded: seq<string> ::
      && (ObjectSays(v, profileId, g, stored, embedded) || ArraySays(v, profileId, g, stored, embedded))
      && g.childrenIds == (if stored == [] then embedded else stored)
  }

  /** The file embeds profiles. */
  predicate Embeds(v: Json) {
    || (v.Obj? && "children" in v.fields && v.fields["children"].Arr? && v.fields["children"].items != [])
    || (v.Arr? && 4 <= |v.items| <= 5 && v.items[3].Arr? && v.items[3].items != [])
  }

  lemma EmbedsIff(v: Json)
    ensures HasChildren(v) <==> Embeds(v)
  {
  }

  lemma {:induction false} ChildIdsIff(items: seq<Json>, profileId: Json -> Option<string>, ids: seq<string>)
    ensures ChildIds(items, profileId) == Some(ids) <==> EmbedsIds(Arr(items), profileId, ids)
  {
    if items != [] {
      var n := |items| - 1;
      if ids != [] {
        ChildIdsIff(items[..n], profileId, ids[..|ids| - 1]);
        assert ids == ids[..|ids| - 1] + [ids[|ids| - 1]];
      }
      var before := ChildIds(items[..n], profileId);
      if before.Some? {
        ChildIdsIff(items[..n], profileId, before.value);
      }
    }
  }

  lemma PrioritiesIff(v: Json, p: map<string, Priority>)
    ensures DecodePriorities(v) == Some(p) <==> AreNumbers(v, p)
  {
    if AreNumbers(v, p) {
      assert forall k :: k in v.fields ==> k in p;
      assert DecodePriorities(v).value == p;
    }
  }

  /** Main result: a file decodes to a group exactly when its fields say so. */
  lemma GroupIff(v: Json, profileId: Json -> Option<string>, g: ProfileGroup)
    ensures GroupOf(v, profileId) == Some(g) <==> IsGroup(v, profileId, g)
  {
    if GroupOf(v, profileId) == Some(g) {
      DecodedSays(v, profileId, g);
    }
    forall stored, embedded |
      && (ObjectSays(v, profileId, g, stored, embedded) || ArraySays(v, profileId, g, stored, embedded))
      && g.childrenIds == (if stored == [] then embedded else stored)
      ensures GroupOf(v, profileId) == Some(g)
    {
      SaidDecodes(v, profileId, g, stored, embedded);
    }
  }

  lemma DecodedSays(v: Json, profileId: Json -> Option<string>, g: ProfileGroup)
    requires GroupOf(v, profileId) == Some(g)
    ensures IsGroup(v, profileId, g)
  {
    var stored := DecodeStrings(Field(v, "childrenIds", 2).GetOr(Arr([]))).value;
    var embedded := ChildIds(Embedded(v).items, profileId).value;
    DecodeStringsIff(Field(v, "childrenIds", 2).GetOr(Arr([])), stored);
    ChildIdsIff(Embedded(v).items, profileId, embedded);
    PrioritiesIff(Field(v, "priorities", 4).GetOr(Obj(map[])), g.priorities);
    assert if v.Obj? then ObjectSays(v, profileId, g, stored, embedded)
           else ArraySays(v, profileId, g, stored, embedded);
  }

  lemma SaidDecodes(v: Json, profileId: Json -> Option<string>, g: ProfileGroup, stored: seq<string>,
                    embedded: seq<string>)
    requires ObjectSays(v, profileId, g, stored, embedded) || ArraySays(v, profileId, g, stored, embedded)
    requires g.childrenIds == (if stored == [] then embedded else stored)
    ensures GroupOf(v, profileId) == Some(g)
  {
    DecodeStringsIff(Field(v, "childrenIds", 2).GetOr(Arr([])), stored);
    ChildIdsIff(Embedded(v).Items(), profileId, embedded);
    PrioritiesIff(Field(v, "priorities", 4).GetOr(Obj(map[])), g.priorities);
  }

  /** A file is one group at most. */
  lemma GroupIsOne(v: Json, profileId: Json -> Option<string>, g: ProfileGroup, h: ProfileGroup)
    requires IsGroup(v, profileId, g) && IsGroup(v, profileId, h)
    ensures g == h
  {
    GroupIff(v, profileId, g);
    GroupIff(v, profileId, h);
  }

  // ---- writing

  function Strs(ss: seq<string>): Json {
    Arr(seq(|ss|, i requires 0 <= i < |ss| => Str(ss[i])))
  }

  /** The file written for a group. */
  function Serialized(g: ProfileGroup): Json {
    Obj(map["id" := Str(g.id), "name" := Str(g.name), "childrenIds" := Strs(g.childrenIds),
            "priorities" := Obj(map k | k in g.priorities :: Num(g.priorities[k]))])
  }

  /** A rewritten group file contributes nothing to the merge. */
  lemma RewrittenFileHasNoRules(g: ProfileGroup)
    ensures ExtractLegacy(Serialized(g)) == Legacy(map[], [], None, [])
  {
  }

  /** Main result: the file written for a group is that group and no other, and embeds no profile. */
  lemma GroupReadsBack(g: ProfileGroup, profileId: Json -> Option<string>, h: ProfileGroup)
    ensures IsGroup(Serialized(g), profileId, h) <==> h == g
    ensures !Embeds(Serialized(g))
  {
    assert ObjectSays(Serialized(g), profileId, g, g.childrenIds, []);
    assert IsGroup(Serialized(g), profileId, g);
    if IsGroup(Serialized(g), profileId, h) {
      GroupIsOne(Serialized(g), profileId, g, h);
    }
  }
}
