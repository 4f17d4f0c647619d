/**
 * The pure part of the scraping stage
 * (src/llm_chatbot_backend/pipelines/web_scraping/nodes.py): `extract_forum_info`,
 * which turns one forum object of the forum API into a `ForumRecord`; the mapping
 * of a page body to its records inside `fetch_page`; and the flattening of the
 * per-page lists in `scrape_all_pages`.
 *
 * The source calls methods on values that only have them when the JSON has the
 * expected shape: `.get` on a non-dictionary, `.strip()` on a non-string, `+` on
 * two values that do not add, or iteration of a number all raise. `fetch_page`
 * catches every exception alike, so all of them are one outcome here, `Raises`.
 */
module WebScraping {
  import opened Text
  import opened Json
  import opened Forum

  datatype Outcome<T> = Ok(value: T) | Raises

  // ---------------------------------------------------------------------------
  // extract_forum_info
  // ---------------------------------------------------------------------------

  /**
   * `doctor_comments[0].get("content_text", "") if doctor_comments else ""`: the
   * raw text of the first comment. A falsy value gives `""`; a non-empty list whose
   * first item is a dictionary gives that item's text; every other truthy value
   * raises (a string's first character and a number have no `.get`, a dictionary
   * has no key `0`).
   */
  function FirstComment(comments: Json): (r: Outcome<Json>)
    ensures !Truthy(comments) ==> r == Ok(Str(""))
    ensures comments.Arr? && comments.items != [] && comments.items[0].Obj? ==>
      r == Ok(Get(comments.items[0].fields, "content_text", Str("")))
    ensures r.Ok? ==> !Truthy(comments) || (comments.Arr? && comments.items[0].Obj?)
  {
    if !Truthy(comments) then Ok(Str(""))
    else if comments.Arr? && comments.items[0].Obj? then Ok(Get(comments.items[0].fields, "content_text", Str("")))
    else Raises
  }

  /**
   * `custom_tags + default_tags`, as the sequence the comprehension iterates. Two
   * lists concatenate. Two strings concatenate too, but iterating the result yields
   * one-character strings, whose `.get` raises, so only two empty strings get
   * through. Every other pair raises.
   */
  function TagList(custom: Json, default: Json): (r: Outcome<seq<Json>>)
    ensures custom.Arr? && default.Arr? ==> r == Ok(custom.items + default.items)
    ensures r.Ok? ==> (custom.Arr? && default.Arr?) || (custom == Str("") && default == Str("") && r.value == [])
  {
    if custom.Arr? && default.Arr? then Ok(custom.items + default.items)
    else if custom == Str("") && default == Str("") then Ok([])
    else Raises
  }

  /** The `name` of a tag, when the tag is a dictionary; `""` when it has none. */
  function RawName(tag: Json): Json
    requires tag.Obj?
  {
    Get(tag.fields, "name", Str(""))
  }

  /** A tag that the comprehension gets through without raising. */
  predicate TagOk(tag: Json)
  {
    tag.Obj? && (!Truthy(RawName(tag)) || RawName(tag).Str?)
  }

  /** A tag that the comprehension keeps: one whose raw name is a non-empty string. */
  predicate TagKept(tag: Json)
  {
    tag.Obj? && RawName(tag).Str? && RawName(tag).s != []
  }

  /**
   * `[tag.get("name", "").strip() for tag in tags if tag.get("name", "")]`. A tag
   * that is not a dictionary raises; a falsy name (missing, `""`, `None`, `0`, an
   * empty list) is skipped; a non-string name that is truthy raises at `.strip()`.
   */
  function TagNames(u: CharClasses, tags: seq<Json>): (r: Outcome<seq<string>>)
    ensures r.Ok? ==> |r.value| <= |tags|
  {
    if tags == [] then Ok([])
    else
      var rest := TagNames(u, tags[1..]);
      if !TagOk(tags[0]) || rest.Raises? then Raises
      else if !TagKept(tags[0]) then rest
      else Ok([Strip(u, RawName(tags[0]).s)] + rest.value)
  }

  /** The comprehension raises exactly when one of the tags makes it raise. */
  lemma {:induction false} TagNamesOk(u: CharClasses, tags: seq<Json>)
    ensures TagNames(u, tags).Ok? <==> forall i :: 0 <= i < |tags| ==> TagOk(tags[i])
  {
    if tags != [] {
      TagNamesOk(u, tags[1..]);
      assert forall i :: 1 <= i < |tags| ==> tags[i] == tags[1..][i - 1];
    }
  }

  /** `tags` of the record: the names of `custom_tags + default_tags`. */
  function Tags(u: CharClasses, forum: map<string, Json>): (r: Outcome<seq<string>>)
  {
    var all := TagList(Get(forum, "custom_tags", Arr([])), Get(forum, "default_tags", Arr([])));
    if all.Raises? then Raises else TagNames(u, all.value)
  }

  /** `forum.get(key, "").strip()`: raises unless the value is a string. */
  function TextField(u: CharClasses, forum: map<string, Json>, key: string): (r: Outcome<string>)
    ensures r.Ok? <==> Get(forum, key, Str("")).Str?
    ensures r.Ok? ==> r.value == Strip(u, Get(forum, key, Str("")).s)
    ensures r.Ok? ==> IsStripped(u, r.value)
  {
    var v := Get(forum, key, Str(""));
    if v.Str? then Ok(Strip(u, v.s)) else Raises
  }

  /** `doctor_text.strip()`, where `doctor_text` is the first comment's raw text. */
  function DoctorReply(u: CharClasses, comments: Json): (r: Outcome<string>)
    ensures r.Ok? ==> IsStripped(u, r.value)
  {
    var t := FirstComment(comments);
    if t.Ok? && t.value.Str? then Ok(Strip(u, t.value.s)) else Raises
  }

  /**
   * `extract_forum_info(forum_obj)`: the forum's text, the first doctor comment's
   * text, the disease key and text, each stripped, and the names of the custom tags
   * followed by those of the default tags. Missing keys take the defaults of the
   * `.get` calls: `{}` for the forum, `[]` for the lists, `""` for the texts.
   */
  function ExtractForumInfo(u: CharClasses, forumObj: Json): (r: Outcome<ForumRecord>)
    ensures !forumObj.Obj? ==> r.Raises?
  {
    if !forumObj.Obj? then Raises
    else
      var forum := Get(forumObj.fields, "forum", Obj(map[]));
      if !forum.Obj? then Raises
      else
        Assemble(
          TextField(u, forum.fields, "content_text"),
          DoctorReply(u, Get(forumObj.fields, "doctor_comments", Arr([]))),
          TextField(u, forum.fields, "disease_key"),
          TextField(u, forum.fields, "disease_text"),
          Tags(u, forum.fields))
  }

  /** The result dictionary, built once all five values are computed. */
  function Assemble(forumText: Outcome<string>, doctorReply: Outcome<string>, diseaseKey: Outcome<string>,
                    diseaseText: Outcome<string>, tags: Outcome<seq<string>>): (r: Outcome<ForumRecord>)
    ensures r.Ok? <==> forumText.Ok? && doctorReply.Ok? && diseaseKey.Ok? && diseaseText.Ok? && tags.Ok?
  {
    if forumText.Ok? && doctorReply.Ok? && diseaseKey.Ok? && diseaseText.Ok? && tags.Ok? then
      Ok(ForumRecord(forumText.value, doctorReply.value, diseaseKey.value, diseaseText.value, tags.value))
    else Raises
  }

  /** The four string fields and every tag are stripped. */
  predicate IsRecordStripped(u: CharClasses, rec: ForumRecord)
  {
    && IsStripped(u, rec.forumText) && IsStripped(u, rec.doctorReply)
    && IsStripped(u, rec.diseaseKey) && IsStripped(u, rec.diseaseText)
    && forall t :: t in rec.tags ==> IsStripped(u, t)
  }

  // ---------------------------------------------------------------------------
  // Properties of extract_forum_info
  // ---------------------------------------------------------------------------

  /**
   * The five fields of an extracted record are the values read from the input: the
   * stripped `content_text`, `disease_key` and `disease_text` of the forum, the
   * stripped text of the first doctor comment, and the names of its tags.
   */
  lemma ExtractFields(u: CharClasses, forumObj: Json)
    requires ExtractForumInfo(u, forumObj).Ok?
    ensures forumObj.Obj? && Get(forumObj.fields, "forum", Obj(map[])).Obj?
    ensures var forum := Get(forumObj.fields, "forum", Obj(map[])).fields;
      var rec := ExtractForumInfo(u, forumObj).value;
      && TextField(u, forum, "content_text") == Ok(rec.forumText)
      && DoctorReply(u, Get(forumObj.fields, "doctor_comments", Arr([]))) == Ok(rec.doctorReply)
      && TextField(u, forum, "disease_key") == Ok(rec.diseaseKey)
      && TextField(u, forum, "disease_text") == Ok(rec.diseaseText)
      && Tags(u, forum) == Ok(rec.tags)
  {
  }

  /** Every name the comprehension returns has been stripped. */
  lemma {:induction false} TagNamesStripped(u: CharClasses, tags: seq<Json>)
    requires TagNames(u, tags).Ok?
    ensures forall t :: t in TagNames(u, tags).value ==> IsStripped(u, t)
  {
    if tags != [] {
      TagNamesStripped(u, tags[1..]);
    }
  }

  /** The four string fields and every tag of an extracted record are stripped. */
  lemma ExtractIsStripped(u: CharClasses, forumObj: Json)
    requires ExtractForumInfo(u, forumObj).Ok?
    ensures IsRecordStripped(u, ExtractForumInfo(u, forumObj).value)
  {
    var forum := Get(forumObj.fields, "forum", Obj(map[]));
    var all := TagList(Get(forum.fields, "custom_tags", Arr([])), Get(forum.fields, "default_tags", Arr([])));
    TagNamesStripped(u, all.value);
  }

  /** The tags of a concatenation are the tags of the first part, then those of the second. */
  lemma {:induction false} TagNamesConcat(u: CharClasses, a: seq<Json>, b: seq<Json>)
    requires TagNames(u, a).Ok? && TagNames(u, b).Ok?
    ensures TagNames(u, a + b) == Ok(TagNames(u, a).value + TagNames(u, b).value)
  {
    if a == [] {
      assert a + b == b;
      assert TagNames(u, a) == Ok([]);
      assert [] + TagNames(u, b).value == TagNames(u, b).value;
    } else {
      TagNamesTail(u, a);
      TagNamesConcat(u, a[1..], b);
      TagNamesConcatStep(u, a, b, TagNames(u, a[1..]).value, TagNames(u, b).value);
    }
  }

  lemma TagNamesTail(u: CharClasses, a: seq<Json>)
    requires a != [] && TagNames(u, a).Ok?
    ensures TagOk(a[0]) && TagNames(u, a[1..]).Ok?
  {
  }

  lemma TagNamesConcatStep(u: CharClasses, a: seq<Json>, b: seq<Json>, ra: seq<string>, rb: seq<string>)
    requires a != [] && TagOk(a[0]) && TagNames(u, a[1..]) == Ok(ra) && TagNames(u, b) == Ok(rb)
    requires TagNames(u, a[1..] + b) == Ok(ra + rb)
    ensures TagNames(u, a + b) == Ok(TagNames(u, a).value + rb)
  {
    var ab := a + b;
    assert ab[0] == a[0] && ab[1..] == a[1..] + b;
    TagNamesCons(u, a, ra);
    TagNamesCons(u, ab, ra + rb);
    var h := if TagKept(a[0]) then [Strip(u, RawName(a[0]).s)] else [];
    assert h + ra + rb == h + (ra + rb);
  }

  /** One step of the comprehension, once the rest of the list is known not to raise. */
  lemma TagNamesCons(u: CharClasses, tags: seq<Json>, rest: seq<string>)
    requires tags != [] && TagOk(tags[0]) && TagNames(u, tags[1..]) == Ok(rest)
    ensures TagNames(u, tags) == Ok((if TagKept(tags[0]) then [Strip(u, RawName(tags[0]).s)] else []) + rest)
  {
    if !TagKept(tags[0]) {
      assert [] + rest == rest;
    }
  }

  /** Reference definition of the comprehension: the tags with a non-empty string name, in order. */
  function KeptTags(tags: seq<Json>): (r: seq<Json>)
    ensures forall t :: t in r ==> TagKept(t) && t in tags
  {
    if tags == [] then []
    else (if TagKept(tags[0]) then [tags[0]] else []) + KeptTags(tags[1..])
  }

  /** The stripped names of tags that are kept. */
  function StrippedNames(u: CharClasses, kept: seq<Json>): (r: seq<string>)
    requires forall t :: t in kept ==> TagKept(t)
    ensures |r| == |kept|
  {
    if kept == [] then []
    else
      assert kept[0] in kept && TagKept(kept[0]);
      assert forall t :: t in kept[1..] ==> t in kept;
      [Strip(u, RawName(kept[0]).s)] + StrippedNames(u, kept[1..])
  }

  /**
   * Filter, then strip: the names are the stripped raw names of exactly the tags
   * whose raw name is a non-empty string, one for each, in order.
   */
  lemma {:induction false} TagNamesAreKeptNames(u: CharClasses, tags: seq<Json>)
    requires TagNames(u, tags).Ok?
    ensures TagNames(u, tags).value == StrippedNames(u, KeptTags(tags))
  {
    if tags != [] {
      var rest := TagNames(u, tags[1..]);
      assert rest.Ok?;
      TagNamesAreKeptNames(u, tags[1..]);
      var k := KeptTags(tags[1..]);
      if TagKept(tags[0]) {
        assert KeptTags(tags) == [tags[0]] + k;
        assert ([tags[0]] + k)[1..] == k;
      } else {
        assert KeptTags(tags) == k;
      }
    }
  }

  /**
   * The filter reads the raw name and the strip comes after it, so a tag whose name
   * is only whitespace is kept, as `""`.
   */
  lemma BlankTagIsEmpty(u: CharClasses, name: string)
    requires name != [] && AllSpaces(u, name)
    ensures TagNames(u, [Obj(map["name" := Str(name)])]) == Ok([""])
  {
    var tag := Obj(map["name" := Str(name)]);
    AllSpacesStrip(u, name);
    assert RawName(tag) == Str(name);
    TagNamesSingle(u, tag);
  }

  lemma TagNamesSingle(u: CharClasses, tag: Json)
    requires TagKept(tag)
    ensures TagNames(u, [tag]) == Ok([Strip(u, RawName(tag).s)])
  {
    assert [tag][1..] == [];
    assert TagNames(u, []) == Ok([]);
    assert [Strip(u, RawName(tag).s)] + [] == [Strip(u, RawName(tag).s)];
  }

  /**
   * The record's tags are the custom tags' names followed by the default tags'
   * names, and there are at most as many as the two lists hold together.
   */
  lemma ExtractTags(u: CharClasses, forum: map<string, Json>, custom: seq<Json>, default: seq<Json>)
    requires Get(forum, "custom_tags", Arr([])) == Arr(custom)
    requires Get(forum, "default_tags", Arr([])) == Arr(default)
    requires Tags(u, forum).Ok?
    ensures TagNames(u, custom).Ok? && TagNames(u, default).Ok?
    ensures Tags(u, forum).value == TagNames(u, custom).value + TagNames(u, default).value
    ensures |Tags(u, forum).value| <= |custom| + |default|
  {
    TagNamesSplit(u, custom, default);
    TagNamesConcat(u, custom, default);
  }

  /** When the comprehension gets through a concatenation, it gets through each part. */
  lemma {:induction false} TagNamesSplit(u: CharClasses, a: seq<Json>, b: seq<Json>)
    requires TagNames(u, a + b).Ok?
    ensures TagNames(u, a).Ok? && TagNames(u, b).Ok?
  {
    if a == [] {
      assert a + b == b;
    } else {
      assert (a + b)[0] == a[0] && (a + b)[1..] == a[1..] + b;
      TagNamesSplit(u, a[1..], b);
    }
  }

  /**
   * Only the first doctor comment is read: the reply is the stripped text of the
   * first comment, whatever comments follow it.
   */
  lemma LaterCommentsIgnored(u: CharClasses, first: map<string, Json>, later: seq<Json>)
    ensures DoctorReply(u, Arr([Obj(first)] + later)) == DoctorReply(u, Arr([Obj(first)]))
    ensures Get(first, "content_text", Str("")).Str? ==>
      DoctorReply(u, Arr([Obj(first)] + later)) == Ok(Strip(u, Get(first, "content_text", Str("")).s))
  {
    var comments := [Obj(first)] + later;
    assert comments[0] == Obj(first);
    assert FirstComment(Arr(comments)) == FirstComment(Arr([Obj(first)]));
  }

  /** With an empty or missing comment list, the doctor's reply is `""`. */
  lemma NoCommentsNoReply(u: CharClasses, m: map<string, Json>)
    requires "doctor_comments" !in m || m["doctor_comments"] == Arr([])
    ensures DoctorReply(u, Get(m, "doctor_comments", Arr([]))) == Ok("")
  {
    var comments := Get(m, "doctor_comments", Arr([]));
    assert comments == Arr([]);
    assert FirstComment(comments) == Ok(Str(""));
    assert |Strip(u, "")| <= 0;
  }

  /**
   * Missing keys never raise: an object without `forum` and without
   * `doctor_comments` extracts to the empty record.
   */
  lemma MissingKeysGiveDefaults(u: CharClasses, m: map<string, Json>)
    requires "forum" !in m && "doctor_comments" !in m
    ensures ExtractForumInfo(u, Obj(m)) == Ok(ForumRecord("", "", "", "", []))
  {
    var forum: map<string, Json> := map[];
    assert Get(m, "forum", Obj(map[])) == Obj(forum);
    NoCommentsNoReply(u, m);
    MissingFieldsGiveDefaults(u, forum, "content_text");
    MissingFieldsGiveDefaults(u, forum, "disease_key");
    MissingFieldsGiveDefaults(u, forum, "disease_text");
  }

  /**
   * Inside a forum, a missing text field is `""` and missing tag lists give no
   * tags, whatever the other fields hold.
   */
  lemma MissingFieldsGiveDefaults(u: CharClasses, forum: map<string, Json>, key: string)
    requires key !in forum
    ensures TextField(u, forum, key) == Ok("")
    ensures "custom_tags" !in forum && "default_tags" !in forum ==> Tags(u, forum) == Ok([])
  {
    AllSpacesStrip(u, "");
  }

  /**
   * The inputs `extract_forum_info` accepts, described field by field without
   * reference to the extraction.
   */
  predicate WellFormed(forumObj: Json)
  {
    && forumObj.Obj?
    && var forum := Get(forumObj.fields, "forum", Obj(map[]));
    && forum.Obj?
    && Get(forum.fields, "content_text", Str("")).Str?
    && Get(forum.fields, "disease_key", Str("")).Str?
    && Get(forum.fields, "disease_text", Str("")).Str?
    && CommentsOk(Get(forumObj.fields, "doctor_comments", Arr([])))
    && TagListsOk(Get(forum.fields, "custom_tags", Arr([])), Get(forum.fields, "default_tags", Arr([])))
  }

  predicate CommentsOk(comments: Json)
  {
    || !Truthy(comments)
    || (comments.Arr? && comments.items[0].Obj? && Get(comments.items[0].fields, "content_text", Str("")).Str?)
  }

  predicate TagListsOk(custom: Json, default: Json)
  {
    || (custom == Str("") && default == Str(""))
    || (&& custom.Arr? && default.Arr?
        && (forall i :: 0 <= i < |custom.items| ==> TagOk(custom.items[i]))
        && (forall i :: 0 <= i < |default.items| ==> TagOk(default.items[i])))
  }

  lemma DoctorReplyOk(u: CharClasses, comments: Json)
    ensures DoctorReply(u, comments).Ok? <==> CommentsOk(comments)
  {
  }

  lemma TagsOk(u: CharClasses, forum: map<string, Json>)
    ensures Tags(u, forum).Ok? <==>
      TagListsOk(Get(forum, "custom_tags", Arr([])), Get(forum, "default_tags", Arr([])))
  {
    var custom := Get(forum, "custom_tags", Arr([]));
    var default := Get(forum, "default_tags", Arr([]));
    if custom.Arr? && default.Arr? {
      TagNamesOk(u, custom.items + default.items);
      AllTagsOkConcat(custom.items, default.items);
    } else if custom == Str("") && default == Str("") {
      TagNamesOk(u, []);
    }
  }

  lemma AllTagsOkConcat(a: seq<Json>, b: seq<Json>)
    ensures (forall i :: 0 <= i < |a + b| ==> TagOk((a + b)[i])) <==>
      (forall i :: 0 <= i < |a| ==> TagOk(a[i])) && (forall i :: 0 <= i < |b| ==> TagOk(b[i]))
  {
    var all := a + b;
    assert forall i :: 0 <= i < |a| ==> all[i] == a[i];
    assert forall i :: 0 <= i < |b| ==> all[|a| + i] == b[i];
  }

  /** `extract_forum_info` returns a record exactly for the well-formed inputs and raises on all others. */
  lemma ExtractSucceedsIff(u: CharClasses, forumObj: Json)
    ensures ExtractForumInfo(u, forumObj).Ok? <==> WellFormed(forumObj)
  {
    if forumObj.Obj? {
      var forum := Get(forumObj.fields, "forum", Obj(map[]));
      DoctorReplyOk(u, Get(forumObj.fields, "doctor_comments", Arr([])));
      if forum.Obj? {
        TagsOk(u, forum.fields);
      }
    }
  }

  /** The test fixture: one forum with one default tag and one doctor comment. */
  const FixtureTag: Json := Obj(map["name" := Str("test tag")])

  const FixtureInner: map<string, Json> := map[
    "disease_key" := Str("test disease key"),
    "disease_text" := Str("test disease text"),
    "content_text" := Str("test content text"),
    "default_tags" := Arr([FixtureTag])]

  const FixtureComments: Json := Arr([Obj(map["content_text" := Str("test doctor comment")])])

  const FixtureForum: Json := Obj(map["forum" := Obj(FixtureInner), "doctor_comments" := FixtureComments])

  const FixtureRecord: ForumRecord :=
    ForumRecord("test content text", "test doctor comment", "test disease key", "test disease text", ["test tag"])

  /** The fixture extracts to the expected record (the letters at the ends are not whitespace). */
  lemma ExtractFixture(u: CharClasses)
    requires !u.isSpace('t') && !u.isSpace('y') && !u.isSpace('g')
    ensures ExtractForumInfo(u, FixtureForum) == Ok(FixtureRecord)
  {
    assert Get(FixtureForum.fields, "forum", Obj(map[])) == Obj(FixtureInner);
    assert Get(FixtureForum.fields, "doctor_comments", Arr([])) == FixtureComments;
    FixtureTexts(u);
    FixtureReply(u);
    FixtureTags(u);
  }

  lemma FixtureTexts(u: CharClasses)
    requires !u.isSpace('t') && !u.isSpace('y')
    ensures TextField(u, FixtureInner, "content_text") == Ok("test content text")
    ensures TextField(u, FixtureInner, "disease_key") == Ok("test disease key")
    ensures TextField(u, FixtureInner, "disease_text") == Ok("test disease text")
  {
    TextFieldOfStripped(u, FixtureInner, "content_text", "test content text");
    TextFieldOfStripped(u, FixtureInner, "disease_key", "test disease key");
    TextFieldOfStripped(u, FixtureInner, "disease_text", "test disease text");
  }

  lemma TextFieldOfStripped(u: CharClasses, forum: map<string, Json>, key: string, text: string)
    requires key in forum && forum[key] == Str(text) && IsStripped(u, text)
    ensures TextField(u, forum, key) == Ok(text)
  {
    StripOfStripped(u, text);
  }

  lemma FixtureReply(u: CharClasses)
    requires !u.isSpace('t')
    ensures DoctorReply(u, FixtureComments) == Ok("test doctor comment")
  {
    ReplyOfStripped(u, "test doctor comment");
  }

  lemma ReplyOfStripped(u: CharClasses, text: string)
    requires IsStripped(u, text)
    ensures DoctorReply(u, Arr([Obj(map["content_text" := Str(text)])])) == Ok(text)
  {
    var comments := Arr([Obj(map["content_text" := Str(text)])]);
    assert Truthy(comments) && comments.items[0].Obj?;
    assert FirstComment(comments) == Ok(Str(text));
    StripOfStripped(u, text);
  }

  lemma FixtureTags(u: CharClasses)
    requires !u.isSpace('t') && !u.isSpace('g')
    ensures Tags(u, FixtureInner) == Ok(["test tag"])
  {
    assert Get(FixtureInner, "custom_tags", Arr([])) == Arr([]);
    assert Get(FixtureInner, "default_tags", Arr([])) == Arr([FixtureTag]);
    assert [] + [FixtureTag] == [FixtureTag];
    TagOfStripped(u, "test tag");
  }

  lemma TagOfStripped(u: CharClasses, name: string)
    requires name != [] && IsStripped(u, name)
    ensures TagNames(u, [Obj(map["name" := Str(name)])]) == Ok([name])
  {
    var tag := Obj(map["name" := Str(name)]);
    assert RawName(tag) == Str(name);
    TagNamesSingle(u, tag);
    StripOfStripped(u, name);
  }

  // ---------------------------------------------------------------------------
  // fetch_page and scrape_all_pages
  // ---------------------------------------------------------------------------

  /**
   * What `client.get(url)` followed by `raise_for_status()` and `res.json()` gives:
   * a failure (network error, error status, malformed body) or the decoded body.
   */
  datatype PageResponse = Failed | Body(data: Json)

  /**
   * A list comprehension `[f(x) for x in xs]` whose `f` may raise: it raises as
   * soon as one item does, and otherwise gives one result per item, in order.
   */
  function MapAll<A, B>(f: A -> Outcome<B>, xs: seq<A>): (r: Outcome<seq<B>>)
    ensures r.Ok? ==> (|r.value| == |xs| && forall i :: 0 <= i < |xs| ==> f(xs[i]) == Ok(r.value[i]))
  {
    if xs == [] then Ok([])
    else
      var first := f(xs[0]);
      var rest := MapAll(f, xs[1..]);
      if first.Raises? || rest.Raises? then Raises
      else
        var r := [first.value] + rest.value;
        forall i | 1 <= i < |xs| ensures f(xs[i]) == Ok(r[i]) {
          assert xs[i] == xs[1..][i - 1] && r[i] == rest.value[i - 1];
        }
        Ok(r)
  }

  /** The comprehension raises exactly when one of the items does. */
  lemma {:induction false} MapAllOk<A, B>(f: A -> Outcome<B>, xs: seq<A>)
    ensures MapAll(f, xs).Ok? <==> forall i :: 0 <= i < |xs| ==> f(xs[i]).Ok?
  {
    if xs != [] {
      MapAllOk(f, xs[1..]);
      assert forall i :: 1 <= i < |xs| ==> xs[i] == xs[1..][i - 1];
    }
  }

  /** `[extract_forum_info(f) for f in forums]`. */
  function ExtractAll(u: CharClasses, forums: seq<Json>): Outcome<seq<ForumRecord>>
  {
    MapAll((f: Json) => ExtractForumInfo(u, f), forums)
  }

  /**
   * The records of one page: `data.get("pageProps", {}).get("forums", [])` mapped
   * through `extract_forum_info`. Any exception on the way (a failed request, a body
   * or `pageProps` that is not a dictionary, `forums` that is not a list, a forum
   * that does not extract) is caught and gives `[]`.
   */
  function FetchPage(u: CharClasses, response: PageResponse): (r: seq<ForumRecord>)
    ensures response.Failed? ==> r == []
    ensures r != [] ==> response.Body? && response.data.Obj?
  {
    match response
    case Failed => []
    case Body(data) =>
      if !data.Obj? then []
      else
        var pageProps := Get(data.fields, "pageProps", Obj(map[]));
        if !pageProps.Obj? then []
        else
          var forums := Get(pageProps.fields, "forums", Arr([]));
          if !forums.Arr? then []
          else
            var all := ExtractAll(u, forums.items);
            if all.Raises? then [] else all.value
  }

  /** A body without `pageProps`, or whose `pageProps` has no `forums`, gives no records. */
  lemma FetchPageMissingKeys(u: CharClasses, data: map<string, Json>)
    requires "pageProps" !in data || (data["pageProps"].Obj? && "forums" !in data["pageProps"].fields)
    ensures FetchPage(u, Body(Obj(data))) == []
  {
  }

  /**
   * When every forum of the page extracts, the page gives one record per forum, in
   * order; when one of them raises, the whole page gives `[]`.
   */
  lemma FetchPageForums(u: CharClasses, data: map<string, Json>, forums: seq<Json>)
    requires "pageProps" in data && data["pageProps"].Obj?
    requires "forums" in data["pageProps"].fields && data["pageProps"].fields["forums"] == Arr(forums)
    ensures var r := FetchPage(u, Body(Obj(data)));
      && ((forall i :: 0 <= i < |forums| ==> ExtractForumInfo(u, forums[i]).Ok?) ==>
            |r| == |forums| && forall i :: 0 <= i < |forums| ==> ExtractForumInfo(u, forums[i]) == Ok(r[i]))
      && ((exists i :: 0 <= i < |forums| && ExtractForumInfo(u, forums[i]).Raises?) ==> r == [])
  {
    MapAllOk((f: Json) => ExtractForumInfo(u, f), forums);
  }

  /** The page body of the test of the page fetch gives the fixture record. */
  lemma FetchFixturePage(u: CharClasses)
    requires !u.isSpace('t') && !u.isSpace('y') && !u.isSpace('g')
    ensures FetchPage(u, Body(Obj(map["pageProps" := Obj(map["forums" := Arr([FixtureForum])])]))) == [FixtureRecord]
  {
    ExtractFixture(u);
    FetchPageOfOne(u, FixtureForum, FixtureRecord);
  }

  lemma FetchPageOfOne(u: CharClasses, forum: Json, rec: ForumRecord)
    requires ExtractForumInfo(u, forum) == Ok(rec)
    ensures FetchPage(u, Body(Obj(map["pageProps" := Obj(map["forums" := Arr([forum])])]))) == [rec]
  {
    MapAllSingle((f: Json) => ExtractForumInfo(u, f), forum);
  }

  lemma MapAllSingle<A, B>(f: A -> Outcome<B>, x: A)
    requires f(x).Ok?
    ensures MapAll(f, [x]) == Ok([f(x).value])
  {
    assert [x][1..] == [];
    assert [f(x).value] + [] == [f(x).value];
  }

  /** `[forum for sublist in results for forum in sublist]`. */
  function Flatten<T>(xss: seq<seq<T>>): (r: seq<T>)
  {
    if xss == [] then [] else xss[0] + Flatten(xss[1..])
  }

  lemma FlattenCons<T>(xs: seq<T>, xss: seq<seq<T>>)
    ensures Flatten([xs] + xss) == xs + Flatten(xss)
  {
    assert ([xs] + xss)[1..] == xss;
  }

  lemma {:induction false} FlattenAppend<T>(a: seq<seq<T>>, b: seq<seq<T>>)
    ensures Flatten(a + b) == Flatten(a) + Flatten(b)
  {
    if a == [] {
      assert a + b == b;
    } else {
      assert (a + b)[1..] == a[1..] + b;
      FlattenAppend(a[1..], b);
    }
  }

  /** An item is in the flattened list exactly when it is in one of the lists. */
  lemma {:induction false} FlattenMember<T>(xss: seq<seq<T>>, x: T)
    ensures x in Flatten(xss) <==> exists i :: 0 <= i < |xss| && x in xss[i]
  {
    if xss != [] {
      FlattenMember(xss[1..], x);
      if x in Flatten(xss[1..]) {
        var i :| 0 <= i < |xss[1..]| && x in xss[1..][i];
        assert x in xss[i + 1];
      }
      if exists i :: 0 <= i < |xss| && x in xss[i] {
        var i :| 0 <= i < |xss| && x in xss[i];
        if i > 0 {
          assert xss[1..][i - 1] == xss[i];
        }
      }
    }
  }

  /** Lists that are all empty, failed pages for instance, contribute nothing. */
  lemma {:induction false} FlattenOfEmpties<T>(xss: seq<seq<T>>)
    requires forall i :: 0 <= i < |xss| ==> xss[i] == []
    ensures Flatten(xss) == []
  {
    if xss != [] {
      assert forall i :: 0 <= i < |xss[1..]| ==> xss[1..][i] == xss[i + 1];
      FlattenOfEmpties(xss[1..]);
    }
  }

  /** `BASE_URL` up to its `{page}` placeholder, which ends it. */
  const BaseUrlPrefix: string := "https://www.agnoshealth.com/_next/data/i499vlSTx42EOnWUOHBkP/th/forums/search.json?page="

  /** `range(1, 178)`: pages 1 to 177. */
  const PageCount: nat := 177

  /** Decimal digits of `n`, as `str(n)` and `format` write a non-negative `int`. */
  function DecimalString(n: nat): (s: string)
    ensures s != [] && forall k :: 0 <= k < |s| ==> '0' <= s[k] <= '9'
  {
    if n < 10 then [Digit(n)] else DecimalString(n / 10) + [Digit(n % 10)]
  }

  function Digit(d: nat): (c: char)
    requires d < 10
    ensures '0' <= c <= '9'
  {
    ('0' as int + d) as char
  }

  /** Reads decimal digits back, the inverse of `DecimalString`. */
  function DecimalValue(s: string): nat
    requires forall k :: 0 <= k < |s| ==> '0' <= s[k] <= '9'
  {
    if s == [] then 0 else 10 * DecimalValue(s[..|s| - 1]) + (s[|s| - 1] as int - '0' as int)
  }

  lemma {:induction false} DecimalRoundTrip(n: nat)
    ensures DecimalValue(DecimalString(n)) == n
  {
    if n >= 10 {
      var s := DecimalString(n);
      assert s[..|s| - 1] == DecimalString(n / 10);
      DecimalRoundTrip(n / 10);
    } else {
      assert DecimalString(n)[..0] == [];
    }
  }

  /** `BASE_URL.format(page=page)`. */
  function PageUrl(page: nat): (url: string)
    ensures |url| > |BaseUrlPrefix| && url[..|BaseUrlPrefix|] == BaseUrlPrefix
  {
    BaseUrlPrefix + DecimalString(page)
  }

  /** Different pages are fetched from different URLs. */
  lemma PageUrlInjective(p: nat, q: nat)
    requires PageUrl(p) == PageUrl(q)
    ensures p == q
  {
    assert PageUrl(p)[|BaseUrlPrefix|..] == DecimalString(p);
    assert PageUrl(q)[|BaseUrlPrefix|..] == DecimalString(q);
    DecimalRoundTrip(p);
    DecimalRoundTrip(q);
  }

  /** The records of each page, for pages 1 to 177 in order, as `asyncio.gather` returns them. */
  function PageResults(u: CharClasses, fetch: string -> PageResponse): (rs: seq<seq<ForumRecord>>)
    ensures |rs| == PageCount
    ensures forall i :: 0 <= i < PageCount ==> rs[i] == FetchPage(u, fetch(PageUrl(i + 1)))
  {
    ForPages((page: nat) => FetchPage(u, fetch(PageUrl(page))))
  }

  /** `[f(page) for page in range(1, 178)]`. */
  function ForPages<T>(f: nat -> T): (rs: seq<T>)
    ensures |rs| == PageCount
    ensures forall i :: 0 <= i < PageCount ==> rs[i] == f(i + 1)
  {
    seq(PageCount, i requires 0 <= i < PageCount => f(i + 1))
  }

  /**
   * `scrape_all_pages()`: the records of pages 1 to 177 concatenated in page order.
   * The network is the parameter `fetch`, which gives the response to each URL.
   */
  function ScrapeAllPages(u: CharClasses, fetch: string -> PageResponse): seq<ForumRecord>
  {
    Flatten(PageResults(u, fetch))
  }

  /** A record is scraped exactly when some page from 1 to 177 gives it. */
  lemma ScrapedRecordsComeFromPages(u: CharClasses, fetch: string -> PageResponse, rec: ForumRecord)
    ensures rec in ScrapeAllPages(u, fetch) <==>
      exists page :: 1 <= page <= PageCount && rec in FetchPage(u, fetch(PageUrl(page)))
  {
    var rs := PageResults(u, fetch);
    FlattenMember(rs, rec);
    if exists page :: 1 <= page <= PageCount && rec in FetchPage(u, fetch(PageUrl(page))) {
      var page :| 1 <= page <= PageCount && rec in FetchPage(u, fetch(PageUrl(page)));
      assert rec in rs[page - 1];
    }
  }

  /**
   * The result is page 1's records, then those of pages 2 to 177: the order of the
   * pages is kept across the split.
   */
  lemma ScrapeStartsWithFirstPage(u: CharClasses, fetch: string -> PageResponse)
    ensures ScrapeAllPages(u, fetch) == FetchPage(u, fetch(PageUrl(1))) + Flatten(PageResults(u, fetch)[1..])
  {
  }

  /** When every request fails, nothing is scraped. */
  lemma AllPagesFailed(u: CharClasses, fetch: string -> PageResponse)
    requires forall page :: 1 <= page <= PageCount ==> fetch(PageUrl(page)) == Failed
    ensures ScrapeAllPages(u, fetch) == []
  {
    var rs := PageResults(u, fetch);
    forall i | 0 <= i < |rs| ensures rs[i] == [] {
      assert fetch(PageUrl(i + 1)) == Failed;
    }
    FlattenOfEmpties(rs);
  }

  /**
   * A failed page contributes nothing: the result is the same as if that page's
   * request had returned an empty list of forums.
   */
  lemma FailedPageContributesNothing(u: CharClasses, rs: seq<seq<ForumRecord>>, k: nat)
    requires k < |rs| && rs[k] == FetchPage(u, Failed)
    ensures Flatten(rs) == Flatten(rs[..k]) + Flatten(rs[k + 1..])
  {
    assert rs[k] == [];
    FlattenSkipsEmpty(rs, k);
  }

  lemma FlattenSkipsEmpty<T>(xss: seq<seq<T>>, k: nat)
    requires k < |xss| && xss[k] == []
    ensures Flatten(xss) == Flatten(xss[..k]) + Flatten(xss[k + 1..])
  {
    var rest := [xss[k]] + xss[k + 1..];
    assert xss == xss[..k] + rest;
    FlattenAppend(xss[..k], rest);
    FlattenCons(xss[k], xss[k + 1..]);
    assert xss[k] + Flatten(xss[k + 1..]) == Flatten(xss[k + 1..]);
  }
}
