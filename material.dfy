/**
 * The teaching-material record (flask-app/app/models/material.py): its defaults, the
 * comma-separated `tags` column and its dictionary form.
 *
 * Timestamps are integers and are rendered as those integers rather than as ISO text.
 */
module MaterialModel {
  import opened Base
  import opened JsonValues

  datatype Material = Material(
    id: int,
    title: string,
    content: string,
    category: string,
    difficulty: Option<string>,
    order: int,
    isPublished: bool,
    description: Option<string>,
    tags: Option<string>,
    createdAt: int,
    updatedAt: int)

  /** `Material(title=..., ...)` as inserted: `order` 0, published, both timestamps the insertion time. */
  function NewMaterial(id: int, title: string, content: string, category: string, difficulty: Option<string>,
                       description: Option<string>, tags: Option<string>, now: int): (m: Material)
    ensures m.order == 0 && m.isPublished
    ensures m.createdAt == now && m.updatedAt == now
    ensures m.id == id && m.title == title && m.content == content && m.category == category
    ensures m.difficulty == difficulty && m.description == description && m.tags == tags
  {
    Material(id, title, content, category, difficulty, 0, true, description, tags, now, now)
  }

  predicate CommaFree(s: string) {
    forall i :: 0 <= i < |s| ==> s[i] != ','
  }

  /** Python's `s.split(',')`: the pieces between commas, empty pieces included. */
  function Split(s: string): (parts: seq<string>)
    ensures 1 <= |parts|
    ensures forall p :: p in parts ==> CommaFree(p)
  {
    if s == [] then [""]
    else
      var rest := Split(s[1..]);
      if s[0] == ',' then [""] + rest
      else
        assert CommaFree([s[0]] + rest[0]) by {
          assert rest[0] in rest;
        }
        [[s[0]] + rest[0]] + rest[1..]
  }

  /** `','.join(parts)` */
  function Join(parts: seq<string>): string
    requires 1 <= |parts|
  {
    if |parts| == 1 then parts[0] else parts[0] + "," + Join(parts[1..])
  }

  /** Splitting on ',' and joining with ',' gives the text back. */
  lemma {:induction false} JoinSplit(s: string)
    ensures Join(Split(s)) == s
  {
    if s != [] {
      var rest := Split(s[1..]);
      JoinSplit(s[1..]);
      if s[0] == ',' {
        assert Split(s) == [""] + rest;
        assert Split(s)[1..] == rest;
      } else {
        var p := [[s[0]] + rest[0]] + rest[1..];
        assert Split(s) == p;
        if |rest| == 1 {
          assert Join(p) == [s[0]] + rest[0];
        } else {
          assert p[1..] == rest[1..];
          assert Join(rest) == rest[0] + "," + Join(rest[1..]);
        }
      }
    }
  }

  /** A comma-free prefix joins the first piece of what follows it. */
  lemma {:induction false} SplitPrefix(a: string, t: string)
    requires CommaFree(a)
    ensures Split(a + t) == [a + Split(t)[0]] + Split(t)[1..]
  {
    if a != [] {
      assert (a + t)[1..] == a[1..] + t;
      assert a[0] != ',';
      SplitPrefix(a[1..], t);
      assert [a[0]] + (a[1..] + Split(t)[0]) == a + Split(t)[0];
    } else {
      assert a + t == t;
      assert a + Split(t)[0] == Split(t)[0];
      assert Split(t) == [Split(t)[0]] + Split(t)[1..];
    }
  }

  /** Joining comma-free pieces and splitting again gives the pieces back. */
  lemma {:induction false} SplitJoin(parts: seq<string>)
    requires 1 <= |parts|
    requires forall p :: p in parts ==> CommaFree(p)
    ensures Split(Join(parts)) == parts
  {
    if |parts| == 1 {
      SplitPrefix(parts[0], "");
      assert parts[0] + "" == parts[0];
    } else {
      var tail := Join(parts[1..]);
      SplitJoin(parts[1..]);
      assert parts[0] in parts;
      SplitPrefix(parts[0], "," + tail);
      assert parts[0] + "," + tail == parts[0] + ("," + tail);
      assert ("," + tail)[1..] == tail;
      assert Split("," + tail) == [""] + parts[1..];
      assert parts[0] + "" == parts[0];
    }
  }

  /** `self.tags.split(',') if self.tags else []` */
  function TagList(tags: Option<string>): (r: seq<string>)
    ensures r == [] <==> tags.None? || tags.value == ""
    ensures r != [] ==> Join(r) == tags.value
    ensures forall t :: t in r ==> CommaFree(t)
  {
    if tags.None? || tags.value == "" then [] else JoinSplit(tags.value); Split(tags.value)
  }

  function StrList(ts: seq<string>): (r: seq<Json>)
    ensures |r| == |ts| && forall i :: 0 <= i < |ts| ==> r[i] == Str(ts[i])
  {
    if ts == [] then [] else [Str(ts[0])] + StrList(ts[1..])
  }

  /** `to_dict(include_content)`: the content only when asked for; tags as a list. */
  function ToDict(m: Material, includeContent: bool): (d: map<string, Json>)
    ensures "content" in d <==> includeContent
    ensures includeContent ==> d["content"] == Str(m.content)
    ensures d.Keys - {"content"} ==
              {"id", "title", "category", "difficulty", "description", "tags", "order", "created_at", "updated_at"}
    ensures d["tags"] == Array(StrList(TagList(m.tags)))
    ensures d["title"] == Str(m.title) && d["category"] == Str(m.category) && d["order"] == Int(m.order)
  {
    var d := map[
      "id" := Int(m.id),
      "title" := Str(m.title),
      "category" := Str(m.category),
      "difficulty" := OptStr(m.difficulty),
      "description" := OptStr(m.description),
      "tags" := Array(StrList(TagList(m.tags))),
      "order" := Int(m.order),
      "created_at" := Int(m.createdAt),
      "updated_at" := Int(m.updatedAt)];
    if includeContent then d["content" := Str(m.content)] else d
  }
}
