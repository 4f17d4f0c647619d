/**
 * The five-field forum record that the scraper produces and the data-processing
 * stage consumes, and its form as the dictionary that the pipeline stores as JSON.
 */
module Forum {
  import opened Json

  datatype Option<T> = None | Some(value: T)

  datatype ForumRecord = ForumRecord(
    forumText: string,
    doctorReply: string,
    diseaseKey: string,
    diseaseText: string,
    tags: seq<string>)

  const ForumTextKey: string := "forum_text"
  const DoctorReplyKey: string := "doctor_reply"
  const DiseaseKeyKey: string := "disease_key"
  const DiseaseTextKey: string := "disease_text"
  const TagsKey: string := "tags"

  /** The keys of the dictionary that `extract_forum_info` returns. */
  const RecordKeys: set<string> := {ForumTextKey, DoctorReplyKey, DiseaseKeyKey, DiseaseTextKey, TagsKey}

  function StrList(xs: seq<string>): (r: seq<Json>)
    ensures |r| == |xs| && forall i :: 0 <= i < |xs| ==> r[i] == Str(xs[i])
  {
    seq(|xs|, i requires 0 <= i < |xs| => Str(xs[i]))
  }

  /** The record as the dictionary the source builds: exactly the five keys. */
  function ToJson(rec: ForumRecord): (j: Json)
    ensures j.Obj? && j.fields.Keys == RecordKeys
    ensures j.fields[ForumTextKey] == Str(rec.forumText)
    ensures j.fields[DoctorReplyKey] == Str(rec.doctorReply)
    ensures j.fields[DiseaseKeyKey] == Str(rec.diseaseKey)
    ensures j.fields[DiseaseTextKey] == Str(rec.diseaseText)
    ensures j.fields[TagsKey] == Arr(StrList(rec.tags))
  {
    Obj(map[
      ForumTextKey := Str(rec.forumText),
      DoctorReplyKey := Str(rec.doctorReply),
      DiseaseKeyKey := Str(rec.diseaseKey),
      DiseaseTextKey := Str(rec.diseaseText),
      TagsKey := Arr(StrList(rec.tags))])
  }

  /** The strings of a list whose items are all strings; `None` otherwise. */
  function StrItems(items: seq<Json>): (r: Option<seq<string>>)
    ensures r.Some? <==> forall i :: 0 <= i < |items| ==> items[i].Str?
    ensures r.Some? ==> |r.value| == |items| && forall i :: 0 <= i < |items| ==> items[i] == Str(r.value[i])
  {
    if items == [] then Some([])
    else
      var rest := StrItems(items[1..]);
      if !items[0].Str? || rest.None? then
        assert !items[0].Str? || exists i :: 0 <= i < |items[1..]| && !items[1..][i].Str?;
        None
      else
        var xs := [items[0].s] + rest.value;
        assert forall i :: 1 <= i < |items| ==> items[i] == items[1..][i - 1];
        Some(xs)
  }

  /** Reads a dictionary back as a record, if it holds the five fields with the right types. */
  function FromJson(j: Json): (r: Option<ForumRecord>)
  {
    if !j.Obj? || !(RecordKeys <= j.fields.Keys) then None
    else
      var f := j.fields;
      var tags := if f[TagsKey].Arr? then StrItems(f[TagsKey].items) else None;
      if f[ForumTextKey].Str? && f[DoctorReplyKey].Str? && f[DiseaseKeyKey].Str? && f[DiseaseTextKey].Str? && tags.Some? then
        Some(ForumRecord(f[ForumTextKey].s, f[DoctorReplyKey].s, f[DiseaseKeyKey].s, f[DiseaseTextKey].s, tags.value))
      else None
  }

  /** The dictionary form loses nothing: reading it back gives the record. */
  lemma FromToJson(rec: ForumRecord)
    ensures FromJson(ToJson(rec)) == Some(rec)
  {
    var items := StrList(rec.tags);
    var t := StrItems(items);
    assert t.Some?;
    assert t.value == rec.tags;
  }
}
