/**
 * The record-level part of the data-processing stage
 * (src/llm_chatbot_backend/pipelines/data_processing/nodes.py): `process_text`,
 * which cleans three text fields of every record, and `build_rag_context`, the
 * text template a record is embedded from.
 */
module DataProcessing {
  import opened Text
  import opened Json
  import opened TextCleaner
  import opened Forum

  // ---------------------------------------------------------------------------
  // process_text
  // ---------------------------------------------------------------------------

  /** The three fields that `process_text` replaces by their cleaned text. */
  const CleanedKeys: set<string> := {ForumTextKey, DoctorReplyKey, DiseaseTextKey}

  /** `clean_text(item.get(key, ""))`, stored back as a string. */
  function CleanedField(u: CharClasses, item: map<string, Json>, key: string): Json
  {
    Str(CleanText(u, Get(item, key, Str(""))))
  }

  /**
   * The record that `process_text` builds from `item`: a copy of every field of
   * `item`, with `forum_text`, `doctor_reply` and `disease_text` set to the cleaned
   * text of their old value (`""` when the field is missing).
   */
  function CleanRecord(u: CharClasses, item: map<string, Json>): (r: map<string, Json>)
    ensures r.Keys == item.Keys + CleanedKeys
    ensures forall k :: k in item && k !in CleanedKeys ==> r[k] == item[k]
    ensures forall k :: k in CleanedKeys ==> r[k] == CleanedField(u, item, k)
  {
    map k | k in item.Keys + CleanedKeys :: if k in CleanedKeys then CleanedField(u, item, k) else item[k]
  }

  /**
   * The three cleaned fields are strings of the cleaned shape, and a field that is
   * missing or holds no string becomes `""`.
   */
  lemma CleanRecordFields(u: CharClasses, item: map<string, Json>, k: string)
    requires k in CleanedKeys
    ensures CleanRecord(u, item)[k].Str?
    ensures k !in item || !item[k].Str? ==> CleanRecord(u, item)[k] == Str("")
    ensures u.Valid() ==> IsClean(u, CleanRecord(u, item)[k].s)
  {
    var v := Get(item, k, Str(""));
    var r := CleanText(u, v);
    assert CleanRecord(u, item)[k] == Str(r);
    if k !in item {
      assert v == Str("");
      assert |CleanString(u, "")| <= 0;
    }
    if u.Valid() {
      CleanTextIsClean(u, v);
    }
  }

  /**
   * `process_text(data)`: one cleaned record per input record, in the same order.
   * No record is dropped, not even one whose reply is empty.
   */
  method ProcessText(u: CharClasses, data: seq<map<string, Json>>) returns (cleaned: seq<map<string, Json>>)
    ensures |cleaned| == |data|
    ensures forall i :: 0 <= i < |data| ==> cleaned[i] == CleanRecord(u, data[i])
  {
    ghost var spec := seq(|data|, j requires 0 <= j < |data| => CleanRecord(u, data[j]));
    cleaned := [];
    for i := 0 to |data|
      invariant cleaned == spec[..i]
    {
      cleaned := cleaned + [CleanRecord(u, data[i])];
      PrefixSnoc(spec, i);
    }
    assert spec[..|data|] == spec;
  }

  lemma PrefixSnoc<T>(s: seq<T>, i: nat)
    requires i < |s|
    ensures s[..i] + [s[i]] == s[..i + 1]
  {
  }

  /** Cleaning a record twice is cleaning it once. */
  lemma CleanRecordIdempotent(u: CharClasses, item: map<string, Json>)
    requires u.Valid()
    ensures CleanRecord(u, CleanRecord(u, item)) == CleanRecord(u, item)
  {
    var r := CleanRecord(u, item);
    var r2 := CleanRecord(u, r);
    assert r2.Keys == r.Keys;
    forall k | k in r ensures r2[k] == r[k] {
      CleanFieldIdempotent(u, item, r, k);
    }
  }

  lemma CleanFieldIdempotent(u: CharClasses, item: map<string, Json>, r: map<string, Json>, k: string)
    requires u.Valid() && r == CleanRecord(u, item) && k in r
    ensures CleanRecord(u, r)[k] == r[k]
  {
    if k in CleanedKeys {
      var v := Get(item, k, Str(""));
      assert r[k] == Str(CleanText(u, v));
      assert CleanRecord(u, r)[k] == Str(CleanText(u, r[k]));
      CleanTextIdempotent(u, v);
    }
  }

  /** A record whose fields are already clean is copied unchanged. */
  lemma CleanRecordOfClean(u: CharClasses, item: map<string, Json>)
    requires u.Valid()
    requires forall k :: k in CleanedKeys ==> k in item && item[k].Str? && IsClean(u, item[k].s)
    ensures CleanRecord(u, item) == item
  {
    var r := CleanRecord(u, item);
    assert r.Keys == item.Keys;
    forall k | k in item ensures r[k] == item[k] {
      if k in CleanedKeys {
        CleanFieldOfClean(u, item, k);
      }
    }
  }

  lemma CleanFieldOfClean(u: CharClasses, item: map<string, Json>, k: string)
    requires u.Valid() && k in item && item[k].Str? && IsClean(u, item[k].s)
    ensures CleanedField(u, item, k) == item[k]
  {
    CleanStringOfClean(u, item[k].s);
  }

  /**
   * The record with the three texts cleaned: `process_text` on the dictionary of a
   * scraped record is this record's dictionary.
   */
  function CleanForumRecord(u: CharClasses, rec: ForumRecord): ForumRecord
  {
    rec.(forumText := CleanString(u, rec.forumText),
         doctorReply := CleanString(u, rec.doctorReply),
         diseaseText := CleanString(u, rec.diseaseText))
  }

  /** Cleaning the dictionary of a scraped record gives the dictionary of the cleaned record. */
  lemma CleanRecordOfScraped(u: CharClasses, rec: ForumRecord)
    ensures CleanRecord(u, ToJson(rec).fields) == ToJson(CleanForumRecord(u, rec)).fields
  {
    var r := CleanRecord(u, ToJson(rec).fields);
    var out := CleanForumRecord(u, rec);
    ScrapedKeys(u, rec);
    ScrapedText(u, rec, ForumTextKey, rec.forumText);
    ScrapedText(u, rec, DoctorReplyKey, rec.doctorReply);
    ScrapedText(u, rec, DiseaseTextKey, rec.diseaseText);
    ScrapedCopies(u, rec);
    RecordOfFields(r, out);
  }

  lemma ScrapedKeys(u: CharClasses, rec: ForumRecord)
    ensures CleanRecord(u, ToJson(rec).fields).Keys == RecordKeys
  {
    assert CleanedKeys <= RecordKeys;
  }

  lemma ScrapedText(u: CharClasses, rec: ForumRecord, k: string, s: string)
    requires k in CleanedKeys && ToJson(rec).fields[k] == Str(s)
    ensures CleanRecord(u, ToJson(rec).fields)[k] == Str(CleanString(u, s))
  {
    CleanFieldOfStr(u, ToJson(rec).fields, k, s);
  }

  lemma ScrapedCopies(u: CharClasses, rec: ForumRecord)
    ensures CleanRecord(u, ToJson(rec).fields)[DiseaseKeyKey] == Str(rec.diseaseKey)
    ensures CleanRecord(u, ToJson(rec).fields)[TagsKey] == Arr(StrList(rec.tags))
  {
    CopiedKeys();
  }

  /** `disease_key` and `tags` are not cleaned. */
  lemma CopiedKeys()
    ensures DiseaseKeyKey !in CleanedKeys && TagsKey !in CleanedKeys
  {
  }

  /** A dictionary with the five keys, holding the fields of `rec`, is the dictionary of `rec`. */
  lemma RecordOfFields(r: map<string, Json>, rec: ForumRecord)
    requires r.Keys == RecordKeys
    requires r[ForumTextKey] == Str(rec.forumText) && r[DoctorReplyKey] == Str(rec.doctorReply)
    requires r[DiseaseKeyKey] == Str(rec.diseaseKey) && r[DiseaseTextKey] == Str(rec.diseaseText)
    requires r[TagsKey] == Arr(StrList(rec.tags))
    ensures r == ToJson(rec).fields
  {
  }

  lemma CleanFieldOfStr(u: CharClasses, m: map<string, Json>, k: string, s: string)
    requires k in m && m[k] == Str(s)
    ensures CleanedField(u, m, k) == Str(CleanString(u, s))
  {
  }

  // ---------------------------------------------------------------------------
  // The unit test of process_text
  // ---------------------------------------------------------------------------

  /** Allowed text without whitespace, ':' or long repeats, and with one trailing space. */
  lemma CleanWordSpace(u: CharClasses, w: string)
    requires u.Valid()
    requires w != [] && ':' !in w && AllAllowed(u, w) && NoTripleRun(w)
    requires forall c :: c in w ==> !u.isSpace(c)
    ensures CleanString(u, w + " ") == w
  {
    WordSpaceFiltered(u, w);
    WordSpaceCollapsed(u, w);
    WordSpaceStripped(u, w);
  }

  lemma WordSpaceFiltered(u: CharClasses, w: string)
    requires u.Valid() && ':' !in w && AllAllowed(u, w)
    ensures KeepAllowed(u, DropUrls(u, w + " ")) == w + " "
  {
    assert AllAllowed(u, w + " ");
    FilterOfWord(u, w + " ");
  }

  lemma WordSpaceCollapsed(u: CharClasses, w: string)
    requires u.Valid() && NoTripleRun(w)
    requires forall c :: c in w ==> !u.isSpace(c)
    ensures CollapseRepeats(CollapseSpaces(u, w + " ")) == w + " "
  {
    WordSpaceSpacing(u, w);
    CollapseSpacesIdentity(u, w + " ");
    WordSpaceNoTriple(u, w);
    CollapseRepeatsIdentity(w + " ");
  }

  lemma WordSpaceStripped(u: CharClasses, w: string)
    requires u.Valid() && w != []
    requires forall c :: c in w ==> !u.isSpace(c)
    ensures Strip(u, w + " ") == w
  {
    assert w[0] in w && w[|w| - 1] in w;
    assert w + " " == [] + w + " ";
    StripOfPadded(u, [], w, " ");
  }

  lemma WordSpaceSpacing(u: CharClasses, w: string)
    requires u.Valid()
    requires forall c :: c in w ==> !u.isSpace(c)
    ensures SpacesArePlain(u, w + " ") && NoAdjacentSpaces(u, w + " ")
  {
    var s := w + " ";
    forall i | 0 <= i < |s| - 1 ensures !u.isSpace(s[i]) {
      assert s[i] == w[i] && w[i] in w;
    }
  }

  lemma WordSpaceNoTriple(u: CharClasses, w: string)
    requires NoTripleRun(w)
    requires forall c :: c in w ==> !u.isSpace(c)
    requires u.isSpace(' ')
    ensures NoTripleRun(w + " ")
  {
    var s := w + " ";
    forall i | 0 <= i < |s| ensures !TripleAt(s, i) {
      if i + 2 < |s| {
        assert s[i] == w[i] && w[i] in w;
        if i + 2 == |w| {
          assert s[i + 2] == ' ';
        } else {
          assert !TripleAt(w, i);
          assert s[i + 1] == w[i + 1] && s[i + 2] == w[i + 2];
        }
      }
    }
  }

  /** Allowed text without whitespace, ':' or long repeats is left as it is. */
  lemma CleanWord(u: CharClasses, w: string)
    requires ':' !in w && AllAllowed(u, w) && NoTripleRun(w)
    requires forall c :: c in w ==> !u.isSpace(c)
    ensures CleanString(u, w) == w
  {
    FilterOfWord(u, w);
    CleanStringOfWord(u, w, w);
    CollapseRepeatsIdentity(w);
  }

  /** Thai letters, none three times in a row, with or without a trailing space. */
  predicate ThaiWord(u: CharClasses, w: string)
  {
    && w != []
    && (forall c :: c in w ==> IsThai(c) && !u.isSpace(c))
    && NoTripleRun(w)
  }

  lemma CleanThaiWord(u: CharClasses, w: string)
    requires u.Valid() && ThaiWord(u, w)
    ensures CleanString(u, w + " ") == w && CleanString(u, w) == w
  {
    CleanWordSpace(u, w);
    CleanWord(u, w);
  }

  /** The record of the unit test, with the three Thai words as parameters. */
  function TestItem(a: string, b: string, c: string): map<string, Json>
  {
    map[ForumTextKey := Str(a + " "), DoctorReplyKey := Str(b + " "), DiseaseTextKey := Str(c), TagsKey := Arr([Str("x")])]
  }

  lemma ProcessThaiRecord(u: CharClasses, a: string, b: string, c: string)
    requires u.Valid() && ThaiWord(u, a) && ThaiWord(u, b) && ThaiWord(u, c)
    ensures var r := CleanRecord(u, TestItem(a, b, c));
      r[ForumTextKey] == Str(a) && r[DoctorReplyKey] == Str(b) && r[DiseaseTextKey] == Str(c)
  {
    var m := TestItem(a, b, c);
    ThaiField(u, m, ForumTextKey, a, a + " ");
    ThaiField(u, m, DoctorReplyKey, b, b + " ");
    ThaiField(u, m, DiseaseTextKey, c, c);
  }

  lemma ThaiField(u: CharClasses, m: map<string, Json>, k: string, w: string, s: string)
    requires u.Valid() && ThaiWord(u, w) && k in CleanedKeys
    requires k in m && m[k] == Str(s) && (s == w + " " || s == w)
    ensures CleanRecord(u, m)[k] == Str(w)
  {
    CleanThaiWord(u, w);
    CleanFieldOfStr(u, m, k, s);
  }

  /**
   * The record of the unit test: `"ทดสอบ "`, `"หมอตอบ "` and `"โรค"` are cleaned to
   * `"ทดสอบ"`, `"หมอตอบ"` and `"โรค"`, and the tags are copied.
   */
  lemma ProcessTestRecord(u: CharClasses)
    requires u.Valid()
    requires forall c :: c in "ทดสอบหมอตอบโรค" ==> !u.isSpace(c)
    ensures var r := CleanRecord(u, TestItem("ทดสอบ", "หมอตอบ", "โรค"));
      && r[ForumTextKey] == Str("ทดสอบ")
      && r[DoctorReplyKey] == Str("หมอตอบ")
      && r[DiseaseTextKey] == Str("โรค")
      && r[TagsKey] == Arr([Str("x")])
  {
    TestWordsAreThai(u);
    ProcessThaiRecord(u, "ทดสอบ", "หมอตอบ", "โรค");
  }

  lemma TestWordsAreThai(u: CharClasses)
    requires forall c :: c in "ทดสอบหมอตอบโรค" ==> !u.isSpace(c)
    ensures ThaiWord(u, "ทดสอบ") && ThaiWord(u, "หมอตอบ") && ThaiWord(u, "โรค")
  {
    var all := "ทดสอบหมอตอบโรค";
    assert all[..5] == "ทดสอบ" && all[5..11] == "หมอตอบ" && all[11..] == "โรค";
  }

  // ---------------------------------------------------------------------------
  // build_rag_context
  // ---------------------------------------------------------------------------

  const QuestionLabel: string := "[คำถามจากผู้ใช้]"
  const AnswerLabel: string := "[คำตอบจากแพทย์]"
  const DiseaseLabel: string := "[โรคที่เกี่ยวข้อง]"
  const TagsLabel: string := "[แท็ก]"

  /** The eight spaces that indent every line of the template but the first. */
  const Indent: string := "        "

  /**
   * `build_rag_context(data)`: the triple-quoted f-string of the source, whose twelve
   * physical lines are joined by line feeds.
   */
  function BuildRagContext(rec: ForumRecord): string
  {
    Join("\n", ContextLines(rec))
  }

  /**
   * The twelve lines of the f-string: a label line and a value line for the question,
   * the doctor's answer, the related disease and the tags joined by ", ", an empty
   * line between sections, and a last line of indentation only. Every line but the
   * first is indented by eight spaces.
   */
  function ContextLines(rec: ForumRecord): seq<string>
  {
    [QuestionLabel, Indent + rec.forumText, "",
     Indent + AnswerLabel, Indent + rec.doctorReply, "",
     Indent + DiseaseLabel, Indent + rec.diseaseText, "",
     Indent + TagsLabel, Indent + Join(", ", rec.tags), Indent]
  }

  /**
   * The context holds the four labels, the three texts and every tag, whatever the
   * record holds.
   */
  lemma ContextMentions(rec: ForumRecord)
    ensures var ctx := BuildRagContext(rec);
      && Contains(ctx, QuestionLabel) && Contains(ctx, AnswerLabel)
      && Contains(ctx, DiseaseLabel) && Contains(ctx, TagsLabel)
      && Contains(ctx, rec.forumText) && Contains(ctx, rec.doctorReply) && Contains(ctx, rec.diseaseText)
      && forall k :: 0 <= k < |rec.tags| ==> Contains(ctx, rec.tags[k])
  {
    var ctx := BuildRagContext(rec);
    var xs := ContextLines(rec);
    assert Contains(ctx, xs[0]) && Contains(ctx, xs[3]) && Contains(ctx, xs[6]) && Contains(ctx, xs[9]);
    assert Contains(ctx, xs[1]) && Contains(ctx, xs[4]) && Contains(ctx, xs[7]) && Contains(ctx, xs[10]);
    IndentedContains(ctx, AnswerLabel, Indent);
    IndentedContains(ctx, DiseaseLabel, Indent);
    IndentedContains(ctx, TagsLabel, Indent);
    IndentedContains(ctx, rec.forumText, Indent);
    IndentedContains(ctx, rec.doctorReply, Indent);
    IndentedContains(ctx, rec.diseaseText, Indent);
    var tags := Join(", ", rec.tags);
    forall k | 0 <= k < |rec.tags| ensures Contains(ctx, rec.tags[k]) {
      IndentedContains(ctx, tags, Indent);
      ContainsTransitive(ctx, tags, rec.tags[k]);
    }
  }

  lemma IndentedContains(ctx: string, t: string, indent: string)
    requires Contains(ctx, indent + t)
    ensures Contains(ctx, t)
  {
    assert OccursAt(indent + t, t, |indent|);
    ContainsTransitive(ctx, indent + t, t);
  }

  /**
   * Read back line by line, the context is exactly the template: each label on its
   * own line, the value it labels on the next, in the order question, answer,
   * disease, tags. This holds when no value spans lines, which cleaning guarantees
   * for the three texts.
   */
  lemma ContextLayout(rec: ForumRecord)
    requires '\n' !in rec.forumText && '\n' !in rec.doctorReply && '\n' !in rec.diseaseText
    requires forall k :: 0 <= k < |rec.tags| ==> '\n' !in rec.tags[k]
    ensures Lines(BuildRagContext(rec)) == ContextLines(rec)
  {
    var tags := Join(", ", rec.tags);
    assert '\n' !in tags;
    var xs := ContextLines(rec);
    forall i | 0 <= i < |xs| ensures '\n' !in xs[i] {
    }
    LinesOfJoin(xs);
  }

  /** The context of a cleaned record reads back as the template. */
  lemma CleanedContextLayout(u: CharClasses, rec: ForumRecord)
    requires u.Valid()
    requires forall k :: 0 <= k < |rec.tags| ==> '\n' !in rec.tags[k]
    ensures Lines(BuildRagContext(CleanForumRecord(u, rec))) == ContextLines(CleanForumRecord(u, rec))
  {
    CleanHasNoScheme(u, rec.forumText);
    CleanHasNoScheme(u, rec.doctorReply);
    CleanHasNoScheme(u, rec.diseaseText);
    ContextLayout(CleanForumRecord(u, rec));
  }

  /** The unit test's record: the labels and the first tag are in its context. */
  lemma ContextOfTestRecord()
    ensures var ctx := BuildRagContext(ForumRecord("a", "b", "", "c", ["tag1", "tag2"]));
      Contains(ctx, AnswerLabel) && Contains(ctx, DiseaseLabel) && Contains(ctx, TagsLabel) && Contains(ctx, "tag1")
  {
    ContextMentions(ForumRecord("a", "b", "", "c", ["tag1", "tag2"]));
  }
}
