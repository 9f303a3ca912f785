/**
 * The material service (flask-app/app/services/material_service.py) over the `materials`
 * table: published-only listing and lookup, creation and whitelisted updates by an admin,
 * and the category list. The clock and the outcome of each commit are parameters.
 */
module MaterialService {
  import opened Base
  import opened JsonValues
  import opened MaterialModel
  import Sorting

  const FieldsRequired: string := "제목, 내용, 카테고리는 필수입니다"
  const CreatePrefix: string := "자료 생성 중 오류가 발생했습니다: "
  const NotFound: string := "자료를 찾을 수 없습니다"
  const UpdatePrefix: string := "자료 업데이트 중 오류가 발생했습니다: "

  /** Python truthiness of an optional string argument: present and non-empty. */
  predicate Given(s: Option<string>) {
    s.Some? && s.value != ""
  }

  /** A row `get_all_materials` returns: published, and in the category and difficulty asked for, if any. */
  predicate Listed(m: Material, category: Option<string>, difficulty: Option<string>) {
    && m.isPublished
    && (Given(category) ==> m.category == category.value)
    && (Given(difficulty) ==> m.difficulty == difficulty)
  }

  function Filter(rows: seq<Material>, category: Option<string>, difficulty: Option<string>): (r: seq<Material>)
    ensures forall m :: m in r <==> m in rows && Listed(m, category, difficulty)
    ensures forall m :: multiset(r)[m] == if Listed(m, category, difficulty) then multiset(rows)[m] else 0
  {
    if rows == [] then []
    else
      var rest := Filter(rows[1..], category, difficulty);
      assert rows == [rows[0]] + rows[1..];
      assert forall m :: m in rows <==> m == rows[0] || m in rows[1..];
      if Listed(rows[0], category, difficulty) then [rows[0]] + rest else rest
  }

  /** `ORDER BY order, created_at DESC` */
  predicate ListedBefore(a: Material, b: Material) {
    a.order < b.order || (a.order == b.order && a.createdAt >= b.createdAt)
  }

  lemma ListedBeforeIsPreorder()
    ensures Sorting.TotalPreorder(ListedBefore)
  {
  }

  /** `get_all_materials(category, difficulty)` */
  function GetAllMaterials(rows: seq<Material>, category: Option<string>, difficulty: Option<string>): (r: seq<Material>)
    ensures forall m :: m in r <==> m in rows && Listed(m, category, difficulty)
    ensures multiset(r) == multiset(Filter(rows, category, difficulty))
    ensures forall i, j :: 0 <= i < j < |r| ==>
              r[i].order <= r[j].order && (r[i].order == r[j].order ==> r[i].createdAt >= r[j].createdAt)
  {
    ListedBeforeIsPreorder();
    var r := Sorting.Sort(Filter(rows, category, difficulty), ListedBefore);
    assert forall m :: m in r <==> m in Filter(rows, category, difficulty) by {
      forall m ensures m in r <==> m in Filter(rows, category, difficulty) {
        assert m in r <==> m in multiset(r);
      }
    }
    r
  }

  /** No two rows share an id (the primary key). */
  predicate UniqueIds(rows: seq<Material>) {
    forall i, j :: 0 <= i < j < |rows| ==> rows[i].id != rows[j].id
  }

  /** `filter_by(id=material_id, is_published=True).first()` */
  function GetMaterialById(rows: seq<Material>, id: int): (r: Option<Material>)
    ensures r.Some? ==> r.value in rows && r.value.id == id && r.value.isPublished
    ensures r.None? <==> forall m :: m in rows ==> m.id != id || !m.isPublished
  {
    if rows == [] then None
    else if rows[0].id == id && rows[0].isPublished then Some(rows[0])
    else
      assert forall m :: m in rows <==> m == rows[0] || m in rows[1..];
      GetMaterialById(rows[1..], id)
  }

  /** An unpublished material cannot be fetched by its id. */
  lemma UnpublishedIsHidden(rows: seq<Material>, m: Material)
    requires UniqueIds(rows)
    requires m in rows && !m.isPublished
    ensures GetMaterialById(rows, m.id).None?
  {
  }

  /** `Material.query.get(material_id)`, published or not. */
  function FindById(rows: seq<Material>, id: int): (r: Option<nat>)
    ensures r.Some? ==> r.value < |rows| && rows[r.value].id == id
    ensures r.None? <==> forall m :: m in rows ==> m.id != id
  {
    if rows == [] then None
    else if rows[0].id == id then Some(0)
    else
      assert forall m :: m in rows <==> m == rows[0] || m in rows[1..];
      match FindById(rows[1..], id)
      case None => None
      case Some(k) => Some(k + 1)
  }

  /** `db.session.query(Material.category).distinct()`: every category once, published or not. */
  function GetCategories(rows: seq<Material>): (r: seq<string>)
    ensures forall c :: c in r <==> exists m :: m in rows && m.category == c
    ensures forall i, j :: 0 <= i < j < |r| ==> r[i] != r[j]
  {
    if rows == [] then []
    else
      var rest := GetCategories(rows[1..]);
      assert forall m :: m in rows <==> m == rows[0] || m in rows[1..];
      if rows[0].category in rest then rest else [rows[0].category] + rest
  }

  /** The keys `update_material` copies from the request, in the order it copies them. */
  const Whitelist: seq<string> :=
    ["title", "content", "category", "difficulty", "description", "tags", "order", "is_published"]

  /** A value of the column's own type for a whitelisted key. */
  predicate WellTyped(key: string, v: Json) {
    if key in {"title", "content", "category"} then v.Str?
    else if key in {"difficulty", "description", "tags"} then v.Str? || v.Null?
    else if key == "order" then v.Int?
    else if key == "is_published" then v.Bool?
    else false
  }

  function NullableStr(v: Json): Option<string>
    requires v.Str? || v.Null?
  {
    if v.Str? then Some(v.s) else None
  }

  /** `setattr(material, key, value)` for one whitelisted key. */
  function SetAttr(m: Material, key: string, v: Json): Material
    requires WellTyped(key, v)
  {
    match key
    case "title" => m.(title := v.s)
    case "content" => m.(content := v.s)
    case "category" => m.(category := v.s)
    case "difficulty" => m.(difficulty := NullableStr(v))
    case "description" => m.(description := NullableStr(v))
    case "tags" => m.(tags := NullableStr(v))
    case "order" => m.(order := v.i)
    case _ => m.(isPublished := v.b)
  }

  /** Every whitelisted key present in `data` holds a value of its column's type. */
  predicate WellTypedData(data: map<string, Json>) {
    forall k :: k in Whitelist && k in data ==> WellTyped(k, data[k])
  }

  /** The loop of `update_material` run over the keys `keys`, a prefix of the whitelist. */
  function ApplyKeys(m: Material, data: map<string, Json>, keys: seq<string>): Material
    requires forall k :: k in keys ==> k in Whitelist
    requires WellTypedData(data)
  {
    if keys == [] then m
    else
      var prev := ApplyKeys(m, data, keys[..|keys| - 1]);
      var key := keys[|keys| - 1];
      if key in data then SetAttr(prev, key, data[key]) else prev
  }

  /** What `update_material` makes of a row, field by field: a whitelisted key present in `data` sets its column. */
  function Updated(m: Material, data: map<string, Json>): Material
    requires WellTypedData(data)
  {
    m.(title := if "title" in data then data["title"].s else m.title,
       content := if "content" in data then data["content"].s else m.content,
       category := if "category" in data then data["category"].s else m.category,
       difficulty := if "difficulty" in data then NullableStr(data["difficulty"]) else m.difficulty,
       description := if "description" in data then NullableStr(data["description"]) else m.description,
       tags := if "tags" in data then NullableStr(data["tags"]) else m.tags,
       order := if "order" in data then data["order"].i else m.order,
       isPublished := if "is_published" in data then data["is_published"].b else m.isPublished)
  }

  /** `setattr` changes the one column named by `key`. */
  lemma SetAttrFields(m: Material, key: string, v: Json)
    requires key in Whitelist && WellTyped(key, v)
    ensures var r := SetAttr(m, key, v);
            && r.id == m.id && r.createdAt == m.createdAt && r.updatedAt == m.updatedAt
            && r.title == (if key == "title" then v.s else m.title)
            && r.content == (if key == "content" then v.s else m.content)
            && r.category == (if key == "category" then v.s else m.category)
            && r.difficulty == (if key == "difficulty" then NullableStr(v) else m.difficulty)
            && r.description == (if key == "description" then NullableStr(v) else m.description)
            && r.tags == (if key == "tags" then NullableStr(v) else m.tags)
            && r.order == (if key == "order" then v.i else m.order)
            && r.isPublished == (if key == "is_published" then v.b else m.isPublished)
  {
  }

  /** After copying `keys`, a text column holds the value under its key when that key was copied and is in `data`. */
  lemma {:induction false} ApplyKeysFields(m: Material, data: map<string, Json>, keys: seq<string>)
    requires forall k :: k in keys ==> k in Whitelist
    requires WellTypedData(data)
    ensures var r := ApplyKeys(m, data, keys);
            && r.id == m.id && r.createdAt == m.createdAt && r.updatedAt == m.updatedAt
            && r.title == (if "title" in keys && "title" in data then data["title"].s else m.title)
            && r.content == (if "content" in keys && "content" in data then data["content"].s else m.content)
            && r.category == (if "category" in keys && "category" in data then data["category"].s else m.category)
  {
    if keys != [] {
      var prev := keys[..|keys| - 1];
      var key := keys[|keys| - 1];
      assert keys == prev + [key];
      assert forall k :: k in keys <==> k in prev || k == key;
      ApplyKeysFields(m, data, prev);
      var before := ApplyKeys(m, data, prev);
      if key in data {
        assert ApplyKeys(m, data, keys) == SetAttr(before, key, data[key]);
        SetAttrFields(before, key, data[key]);
      } else {
        assert ApplyKeys(m, data, keys) == before;
      }
    }
  }

  /** The same for the optional columns, `order` and `is_published`. */
  lemma {:induction false} ApplyKeysSettings(m: Material, data: map<string, Json>, keys: seq<string>)
    requires forall k :: k in keys ==> k in Whitelist
    requires WellTypedData(data)
    ensures var r := ApplyKeys(m, data, keys);
            && r.difficulty == (if "difficulty" in keys && "difficulty" in data then NullableStr(data["difficulty"]) else m.difficulty)
            && r.description == (if "description" in keys && "description" in data then NullableStr(data["description"]) else m.description)
            && r.tags == (if "tags" in keys && "tags" in data then NullableStr(data["tags"]) else m.tags)
            && r.order == (if "order" in keys && "order" in data then data["order"].i else m.order)
            && r.isPublished == (if "is_published" in keys && "is_published" in data then data["is_published"].b else m.isPublished)
  {
    if keys != [] {
      var prev := keys[..|keys| - 1];
      var key := keys[|keys| - 1];
      assert keys == prev + [key];
      assert forall k :: k in keys <==> k in prev || k == key;
      ApplyKeysSettings(m, data, prev);
      var before := ApplyKeys(m, data, prev);
      if key in data {
        assert ApplyKeys(m, data, keys) == SetAttr(before, key, data[key]);
        SetAttrFields(before, key, data[key]);
      } else {
        assert ApplyKeys(m, data, keys) == before;
      }
    }
  }

  /** Copying the whitelist key by key yields the field-by-field update. */
  lemma WhitelistLoopIsUpdate(m: Material, data: map<string, Json>)
    requires WellTypedData(data)
    ensures ApplyKeys(m, data, Whitelist) == Updated(m, data)
  {
    ApplyKeysFields(m, data, Whitelist);
    ApplyKeysSettings(m, data, Whitelist);
    assert Whitelist[0] == "title" && Whitelist[1] == "content" && Whitelist[2] == "category";
    assert Whitelist[3] == "difficulty" && Whitelist[4] == "description" && Whitelist[5] == "tags";
    assert Whitelist[6] == "order" && Whitelist[7] == "is_published";
  }

  /** Keys outside the whitelist, such as `id` or `created_at`, change nothing. */
  lemma UpdateIgnoresOtherKeys(m: Material, data: map<string, Json>, key: string, v: Json)
    requires WellTypedData(data)
    requires key !in Whitelist
    ensures WellTypedData(data[key := v])
    ensures Updated(m, data[key := v]) == Updated(m, data)
    ensures Updated(m, data).id == m.id && Updated(m, data).createdAt == m.createdAt
  {
  }

  class MaterialStore {
    /** The `materials` table. */
    var rows: seq<Material>
    /** The id the next committed material receives. */
    var nextId: int

    ghost predicate Valid()
      reads this
    {
      UniqueIds(rows) && forall m :: m in rows ==> m.id < nextId
    }

    constructor ()
      ensures Valid() && rows == [] && nextId == 1
    {
      rows := [];
      nextId := 1;
    }

    /**
     * `create_material`: refuses when the title, the content or the category is missing or
     * empty and adds nothing; otherwise adds exactly one published row, unless the commit fails.
     */
    method CreateMaterial(title: Option<string>, content: Option<string>, category: Option<string>,
                          difficulty: Option<string>, description: Option<string>, tags: Option<string>,
                          now: int, commitOk: bool, commitError: string)
      returns (success: bool, material: Option<Material>, error: Option<string>)
      requires Valid()
      modifies this
      ensures Valid()
      ensures !(Given(title) && Given(content) && Given(category)) ==>
                !success && material.None? && error == Some(FieldsRequired)
      ensures Given(title) && Given(content) && Given(category) && !commitOk ==>
                !success && material.None? && error == Some(CreatePrefix + commitError)
      ensures success <==> Given(title) && Given(content) && Given(category) && commitOk
      ensures success ==>
                var m := NewMaterial(old(nextId), title.value, content.value, category.value,
                                     difficulty, description, tags, now);
                material == Some(m) && error.None? && rows == old(rows) + [m] && nextId == old(nextId) + 1
      ensures !success ==> rows == old(rows) && nextId == old(nextId)
    {
      if !(Given(title) && Given(content) && Given(category)) {
        return false, None, Some(FieldsRequired);
      }
      var m := NewMaterial(nextId, title.value, content.value, category.value, difficulty, description, tags, now);
      if !commitOk {
        return false, None, Some(CreatePrefix + commitError);
      }
      rows := rows + [m];
      nextId := nextId + 1;
      return true, Some(m), None;
    }

    /**
     * `update_material`: an unknown id changes nothing; otherwise the row with that id, published
     * or not, takes the whitelisted values in `data`, unless the commit fails.
     */
    method UpdateMaterial(id: int, data: map<string, Json>, commitOk: bool, commitError: string)
      returns (success: bool, error: Option<string>)
      requires Valid()
      requires WellTypedData(data)
      modifies this
      ensures Valid()
      ensures nextId == old(nextId) && |rows| == |old(rows)|
      ensures (forall m :: m in old(rows) ==> m.id != id) ==>
                !success && error == Some(NotFound) && rows == old(rows)
      ensures (exists m :: m in old(rows) && m.id == id) && !commitOk ==>
                !success && error == Some(UpdatePrefix + commitError) && rows == old(rows)
      ensures success <==> (exists m :: m in old(rows) && m.id == id) && commitOk
      ensures success ==> error.None?
      ensures success ==> forall i :: 0 <= i < |rows| ==>
                  rows[i] == if old(rows)[i].id == id then Updated(old(rows)[i], data) else old(rows)[i]
    {
      var found := FindById(rows, id);
      if found.None? {
        return false, Some(NotFound);
      }
      var i := found.value;
      var m := rows[i];
      for k := 0 to |Whitelist|
        invariant m == ApplyKeys(rows[i], data, Whitelist[..k])
      {
        assert Whitelist[..k + 1][..k] == Whitelist[..k];
        if Whitelist[k] in data {
          m := SetAttr(m, Whitelist[k], data[Whitelist[k]]);
        }
      }
      assert Whitelist[..|Whitelist|] == Whitelist;
      WhitelistLoopIsUpdate(rows[i], data);
      if !commitOk {
        return false, Some(UpdatePrefix + commitError);
      }
      ghost var before := rows;
      rows := rows[i := m];
      assert forall j :: 0 <= j < |rows| && j != i ==> before[j].id != id;
      return true, None;
    }
  }
}
