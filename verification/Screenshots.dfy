/** Screenshot evidence of test results: which local files an item refers to, and when all of them are there. */
module Screenshots {
  import opened Text
  import opened Collections
  import opened Payloads

  datatype Json =
    | Null | Truth(value: bool) | Number(digits: int) | Str(text: string)
    | List(items: seq<Json>) | Obj(members: map<string, Json>)

  /** The evidence of one item; everything that does not decode into an object is `Undecodable`. */
  datatype Evidence = Absent | Undecodable | Record(members: map<string, Json>)

  // ---- References ----

  const REMOTE_PREFIXES := ["data:", "http://", "https://", "/api/", "/artifacts/"]

  predicate IsLocalReference(value: string) {
    var trimmed := TrimSpace(value);
    trimmed != "" && forall i :: 0 <= i < |REMOTE_PREFIXES| ==> !HasPrefix(trimmed, REMOTE_PREFIXES[i])
  }

  const SOURCE_KEYS := [
    "dataUrl", "dataURL", "data_url", "base64", "url", "artifactUrl", "artifactURL", "artifact_url",
    "thumbnailUrl", "thumbnailURL", "thumbnail_url"]

  predicate HasSource(members: map<string, Json>) {
    exists i :: 0 <= i < |SOURCE_KEYS| && SOURCE_KEYS[i] in members && members[SOURCE_KEYS[i]].Str?
                && TrimSpace(members[SOURCE_KEYS[i]].text) != ""
  }

  /** The path an image entry without an embedded or remote source gives. */
  function ImagePath(members: map<string, Json>): seq<string> {
    if HasSource(members) || "path" !in members || !members["path"].Str? then []
    else if !IsLocalReference(members["path"].text) then []
    else [TrimSpace(members["path"].text)]
  }

  function PathReferences(v: Json): seq<string>
    decreases v, if v.List? then |v.items| + 1 else 0
  {
    match v
    case Str(text) => if IsLocalReference(text) then [TrimSpace(text)] else []
    case List(items) => PathReferencesIn(v, |items|)
    case _ => []
  }

  function PathReferencesIn(v: Json, n: nat): seq<string>
    requires v.List? && n <= |v.items|
    decreases v, n
  {
    if n == 0 then [] else PathReferencesIn(v, n - 1) + PathReferences(v.items[n - 1])
  }

  function ImageReferences(v: Json): seq<string>
    decreases v, if v.List? then |v.items| + 1 else 0
  {
    match v
    case Obj(members) => ImagePath(members)
    case List(items) => ImageReferencesIn(v, |items|)
    case _ => []
  }

  function ImageReferencesIn(v: Json, n: nat): seq<string>
    requires v.List? && n <= |v.items|
    decreases v, n
  {
    if n == 0 then [] else ImageReferencesIn(v, n - 1) + ImageReferences(v.items[n - 1])
  }

  function Member(members: map<string, Json>, key: string): Json {
    if key in members then members[key] else Null
  }

  // ---- Deduplication ----

  function Dedupe(values: seq<string>): seq<string> {
    if values == [] then []
    else
      var before, value := Dedupe(values[..|values| - 1]), TrimSpace(values[|values| - 1]);
      if value == "" || value in before then before else before + [value]
  }

  method DedupeStrings(values: seq<string>) returns (deduped: seq<string>)
    ensures deduped == Dedupe(values)
  {
    hide Text.TrimSpace;
    var seen: map<string, bool> := map[];
    deduped := [];
    var index := 0;
    while index < |values|
      invariant 0 <= index <= |values| && deduped == Dedupe(values[..index])
      invariant forall s :: s in seen <==> s in deduped
    {
      assert values[..index + 1][..index] == values[..index];
      var value := TrimSpace(values[index]);
      index := index + 1;
      if value == "" || value in seen {
        continue;
      }
      seen := seen[value := true];
      deduped := deduped + [value];
    }
    assert values[..index] == values;
  }

  /** Every value once, trimmed, and no blank one. */
  lemma {:induction false} DedupeKeepsEachOnce(values: seq<string>)
    ensures NoDuplicates(Dedupe(values))
    ensures forall s :: s in Dedupe(values) <==> s != "" && exists i :: 0 <= i < |values| && TrimSpace(values[i]) == s
  {
    hide Text.TrimSpace;
    if values != [] {
      var before := values[..|values| - 1];
      DedupeKeepsEachOnce(before);
      assert forall i :: 0 <= i < |before| ==> before[i] == values[i];
    }
  }

  // ---- The references of one record ----

  function PlainReferences(members: map<string, Json>): seq<string> {
    PathReferences(Member(members, "screenshot")) + PathReferences(Member(members, "screenshots"))
    + PathReferences(Member(members, "screenshotPaths"))
  }

  const IMAGES := "screenshotImages"

  function LocalPaths(members: map<string, Json>): seq<string> {
    Dedupe(PlainReferences(members) + ImageReferences(Member(members, IMAGES)))
  }

  /** What the files look like while one item is handled: which paths hold a readable image, and its data. */
  datatype Files = Files(readable: string -> bool, data: string -> string, mime: string -> string)

  function Pending(files: Files, e: Evidence): seq<string> {
    if !e.Record? then [] else Unreadable(files, LocalPaths(e.members))
  }

  function Unreadable(files: Files, paths: seq<string>): seq<string> {
    if paths == [] then []
    else
      var before, last := Unreadable(files, paths[..|paths| - 1]), paths[|paths| - 1];
      if files.readable(last) then before else before + [last]
  }

  /** Each item is judged at its own moment. */
  function PendingOf(files: seq<Files>, items: seq<Evidence>): seq<string>
    requires |files| == |items|
  {
    if items == [] then []
    else
      var n := |items| - 1;
      PendingOf(files[..n], items[..n]) + Pending(files[n], items[n])
  }

  method PendingScreenshotPaths(files: seq<Files>, items: seq<Evidence>) returns (pending: seq<string>)
    requires |files| == |items|
    ensures pending == Dedupe(PendingOf(files, items))
  {
    hide LocalPaths, Dedupe;
    pending := [];
    var index := 0;
    while index < |items|
      invariant 0 <= index <= |items| && pending == PendingOf(files[..index], items[..index])
    {
      assert items[..index + 1][..index] == items[..index] && files[..index + 1][..index] == files[..index];
      if items[index].Record? {
        var paths, k := LocalPaths(items[index].members), 0;
        while k < |paths|
          invariant 0 <= k <= |paths|
          invariant pending == PendingOf(files[..index], items[..index]) + Unreadable(files[index], paths[..k])
        {
          assert paths[..k + 1][..k] == paths[..k];
          if !files[index].readable(paths[k]) {
            pending := pending + [paths[k]];
          }
          k := k + 1;
        }
        assert paths[..k] == paths;
      }
      index := index + 1;
    }
    assert items[..index] == items && files[..index] == files;
    pending := DedupeStrings(pending);
  }

  // ---- Enrichment ----

  /** The images of the list that bring their own source. */
  function Embedded(v: Json): seq<Json> {
    if v.List? then EmbeddedIn(v.items) else []
  }

  function EmbeddedIn(items: seq<Json>): seq<Json> {
    if items == [] then []
    else
      var before, last := EmbeddedIn(items[..|items| - 1]), items[|items| - 1];
      if last.Obj? && HasSource(last.members) then before + [last] else before
  }

  function Image(files: Files, path: string): Json {
    Obj(map["path" := Str(path), "mime" := Str(files.mime(path)), "dataUrl" := Str("data:" + files.data(path))])
  }

  function ImagesOf(files: Files, paths: seq<string>): seq<Json> {
    if paths == [] then []
    else
      var before, last := ImagesOf(files, paths[..|paths| - 1]), paths[|paths| - 1];
      if files.readable(last) then before + [Image(files, last)] else before
  }

  /** The images an enriched record shows; none leaves the record alone. */
  function Images(files: Files, members: map<string, Json>): seq<Json> {
    if LocalPaths(members) == [] then []
    else Embedded(Member(members, IMAGES)) + ImagesOf(files, LocalPaths(members))
  }

  function Enrich(files: Files, e: Evidence): Evidence {
    if !e.Record? || Images(files, e.members) == [] then e
    else Record(e.members[IMAGES := List(Images(files, e.members))])
  }

  method EnrichTestResultEvidence(files: Files, e: Evidence) returns (r: Evidence)
    ensures r == Enrich(files, e)
  {
    hide LocalPaths, Image, EmbeddedIn;
    if !e.Record? {
      return e;
    }
    var paths := LocalPaths(e.members);
    if paths == [] {
      return e;
    }
    var images, index := Embedded(Member(e.members, IMAGES)), 0;
    while index < |paths|
      invariant 0 <= index <= |paths| && images == Embedded(Member(e.members, IMAGES)) + ImagesOf(files, paths[..index])
    {
      assert paths[..index + 1][..index] == paths[..index];
      if files.readable(paths[index]) {
        images := images + [Image(files, paths[index])];
      }
      index := index + 1;
    }
    assert paths[..index] == paths;
    r := if images == [] then e else Record(e.members[IMAGES := List(images)]);
  }

  /** Each item is enriched at its own moment. */
  function EnrichAll(files: seq<Files>, items: seq<Evidence>): (r: seq<Evidence>)
    requires |files| == |items|
    ensures |r| == |items| && forall i :: 0 <= i < |items| ==> r[i] == Enrich(files[i], items[i])
  {
    seq(|items|, i requires 0 <= i < |items| => Enrich(files[i], items[i]))
  }

  method EnrichTestResultArtifactEvidence(files: seq<Files>, items: array<Evidence>)
    requires |files| == items.Length
    modifies items
    ensures items[..] == EnrichAll(files, old(items[..]))
  {
    hide Enrich;
    for index := 0 to items.Length
      invariant forall i :: 0 <= i < index ==> items[i] == Enrich(files[i], old(items[i]))
      invariant forall i :: index <= i < items.Length ==> items[i] == old(items[i])
    {
      items[index] := EnrichTestResultEvidence(files[index], items[index]);
    }
  }

  // ---- What the references are ----

  /** The value is the path, or a list that mentions it at any depth. */
  ghost predicate Mentions(v: Json, p: string)
    decreases v
  {
    match v
    case Str(text) => IsLocalReference(text) && TrimSpace(text) == p
    case List(items) => exists i :: 0 <= i < |items| && Mentions(items[i], p)
    case _ => false
  }

  lemma {:induction false} ReferencesAreMentioned(v: Json, p: string)
    ensures p in PathReferences(v) <==> Mentions(v, p)
    decreases v, if v.List? then |v.items| + 1 else 0
  {
    hide IsLocalReference, Text.TrimSpace;
    if v.List? {
      ReferencesInAreMentioned(v, |v.items|, p);
    }
  }

  lemma {:induction false} ReferencesInAreMentioned(v: Json, n: nat, p: string)
    requires v.List? && n <= |v.items|
    ensures p in PathReferencesIn(v, n) <==> exists i :: 0 <= i < n && Mentions(v.items[i], p)
    decreases v, n
  {
    hide IsLocalReference, Text.TrimSpace;
    if n > 0 {
      ReferencesInAreMentioned(v, n - 1, p);
      ReferencesAreMentioned(v.items[n - 1], p);
    }
  }

  /** The paths that an item's three path members mention. */
  ghost predicate ItemMentions(members: map<string, Json>, p: string) {
    || Mentions(Member(members, "screenshot"), p) || Mentions(Member(members, "screenshots"), p)
    || Mentions(Member(members, "screenshotPaths"), p)
  }

  predicate Trimmed(p: string) {
    p != "" && TrimSpace(p) == p
  }

  lemma LocalReferenceTrims(text: string)
    requires IsLocalReference(text)
    ensures Trimmed(TrimSpace(text))
  {
    TrimFixed(TrimSpace(text), IsSpace);
  }

  lemma {:induction false} MentionedIsTrimmed(v: Json, p: string)
    requires Mentions(v, p)
    ensures Trimmed(p)
    decreases v
  {
    hide IsLocalReference, Text.TrimSpace, Trimmed;
    match v {
      case Str(text) => LocalReferenceTrims(text);
      case List(items) =>
        var i :| 0 <= i < |items| && Mentions(items[i], p);
        MentionedIsTrimmed(items[i], p);
    }
  }

  lemma {:induction false} ImageReferenceIsTrimmed(v: Json, p: string)
    requires p in ImageReferences(v)
    ensures Trimmed(p)
    decreases v, if v.List? then |v.items| + 1 else 0
  {
    hide IsLocalReference, Text.TrimSpace, Trimmed, HasSource;
    match v {
      case Obj(members) => LocalReferenceTrims(members["path"].text);
      case List(items) => ImageReferenceInIsTrimmed(v, |items|, p);
    }
  }

  lemma {:induction false} ImageReferenceInIsTrimmed(v: Json, n: nat, p: string)
    requires v.List? && n <= |v.items| && p in ImageReferencesIn(v, n)
    ensures Trimmed(p)
    decreases v, n
  {
    hide Trimmed;
    if p in ImageReferencesIn(v, n - 1) {
      ImageReferenceInIsTrimmed(v, n - 1, p);
    } else {
      ImageReferenceIsTrimmed(v.items[n - 1], p);
    }
  }

  /** The local paths of a record: what its path members mention and its image list refers to. */
  lemma LocalPathsAre(members: map<string, Json>, p: string)
    ensures p in LocalPaths(members) <==> ItemMentions(members, p) || p in ImageReferences(Member(members, IMAGES))
  {
    hide PathReferences, ImageReferences, Mentions, Member, Dedupe, Text.TrimSpace;
    var refs := PlainReferences(members) + ImageReferences(Member(members, IMAGES));
    forall q ensures q in refs <==> ItemMentions(members, q) || q in ImageReferences(Member(members, IMAGES)) {
      ReferencesAreMentioned(Member(members, "screenshot"), q);
      ReferencesAreMentioned(Member(members, "screenshots"), q);
      ReferencesAreMentioned(Member(members, "screenshotPaths"), q);
    }
    forall q | q in refs ensures Trimmed(q) {
      ReferenceIsTrimmed(members, q);
    }
    DedupeKeepsEachOnce(refs);
    hide PlainReferences, ItemMentions, IMAGES;
    if p in refs {
      var i :| 0 <= i < |refs| && refs[i] == p;
      assert TrimSpace(refs[i]) == p;
    }
    if p in LocalPaths(members) {
      var i :| 0 <= i < |refs| && TrimSpace(refs[i]) == p;
      assert refs[i] in refs;
    }
  }

  lemma ReferenceIsTrimmed(members: map<string, Json>, p: string)
    requires ItemMentions(members, p) || p in ImageReferences(Member(members, IMAGES))
    ensures Trimmed(p)
  {
    hide ImageReferences, Mentions, Member, Trimmed;
    if p in ImageReferences(Member(members, IMAGES)) {
      ImageReferenceIsTrimmed(Member(members, IMAGES), p);
    } else if Mentions(Member(members, "screenshot"), p) {
      MentionedIsTrimmed(Member(members, "screenshot"), p);
    } else if Mentions(Member(members, "screenshots"), p) {
      MentionedIsTrimmed(Member(members, "screenshots"), p);
    } else {
      MentionedIsTrimmed(Member(members, "screenshotPaths"), p);
    }
  }

  // ---- Enriched records ----

  predicate Sourced(v: Json) {
    v.Obj? && HasSource(v.members)
  }

  lemma {:induction false} EmbeddedAreSourced(items: seq<Json>)
    ensures forall i :: 0 <= i < |EmbeddedIn(items)| ==> Sourced(EmbeddedIn(items)[i])
  {
    hide HasSource;
    if items != [] {
      EmbeddedAreSourced(items[..|items| - 1]);
    }
  }

  lemma ImageIsSourced(files: Files, p: string)
    ensures Sourced(Image(files, p))
  {
    var members := Image(files, p).members;
    var text := "data:" + files.data(p);
    assert SOURCE_KEYS[0] == "dataUrl" && "dataUrl" in members && members["dataUrl"] == Str(text);
    assert text[0] == 'd' && !IsSpace('d');
    TrimEmpty(text, IsSpace);
    assert text[0] in text;
  }

  lemma {:induction false} ImagesOfAreSourced(files: Files, paths: seq<string>)
    ensures forall i :: 0 <= i < |ImagesOf(files, paths)| ==> Sourced(ImagesOf(files, paths)[i])
    ensures ImagesOf(files, paths) == [] <==> forall i :: 0 <= i < |paths| ==> !files.readable(paths[i])
  {
    hide Sourced, Image;
    if paths != [] {
      ImagesOfAreSourced(files, paths[..|paths| - 1]);
      ImageIsSourced(files, paths[|paths| - 1]);
    }
  }

  lemma {:induction false} SourcedListRefersToNothing(v: Json, n: nat)
    requires v.List? && n <= |v.items| && forall i :: 0 <= i < |v.items| ==> Sourced(v.items[i])
    ensures ImageReferencesIn(v, n) == []
  {
    hide HasSource, IsLocalReference, Text.TrimSpace;
    if n > 0 {
      SourcedListRefersToNothing(v, n - 1);
    }
  }

  /** A rebuilt image list refers to no file. */
  lemma RebuiltListRefersToNothing(files: Files, members: map<string, Json>)
    ensures ImageReferences(List(Images(files, members))) == []
  {
    hide LocalPaths, Sourced, Member, ImagesOf, EmbeddedIn;
    var v := Member(members, IMAGES);
    if v.List? {
      EmbeddedAreSourced(v.items);
    }
    ImagesOfAreSourced(files, LocalPaths(members));
    SourcedListRefersToNothing(List(Images(files, members)), |Images(files, members)|);
  }

  /** The list is rebuilt when the item has a local path and shows at least one image: embedded, or readable now. */
  lemma RebuiltExactly(files: Files, members: map<string, Json>)
    ensures Images(files, members) != [] <==>
            LocalPaths(members) != []
            && (|| Embedded(Member(members, IMAGES)) != []
                || exists i :: 0 <= i < |LocalPaths(members)| && files.readable(LocalPaths(members)[i]))
  {
    hide LocalPaths, Sourced, Member, ImagesOf, EmbeddedIn;
    ImagesOfAreSourced(files, LocalPaths(members));
  }

  lemma {:induction false} NothingUnreadable(files: Files, paths: seq<string>)
    ensures Unreadable(files, paths) == [] <==> forall p :: p in paths ==> files.readable(p)
    ensures forall p :: p in Unreadable(files, paths) ==> p in paths && !files.readable(p)
  {
    if paths != [] {
      NothingUnreadable(files, paths[..|paths| - 1]);
      assert forall p :: p in paths <==> p in paths[..|paths| - 1] || p == paths[|paths| - 1];
    }
  }

  /** Every path the three path members mention can be read. */
  ghost predicate MentionedReadable(files: Files, members: map<string, Json>) {
    forall p :: ItemMentions(members, p) ==> files.readable(p)
  }

  ghost predicate ImagePathsReadable(files: Files, members: map<string, Json>) {
    forall p :: p in ImageReferences(Member(members, IMAGES)) ==> files.readable(p)
  }

  lemma NothingPendingExactly(files: Files, members: map<string, Json>)
    ensures Pending(files, Record(members)) == []
            <==> MentionedReadable(files, members) && ImagePathsReadable(files, members)
  {
    hide ItemMentions, LocalPaths, ImageReferences, Member, Unreadable;
    NothingUnreadable(files, LocalPaths(members));
    forall p
      ensures p in LocalPaths(members) <==> ItemMentions(members, p) || p in ImageReferences(Member(members, IMAGES))
    {
      LocalPathsAre(members, p);
    }
  }

  lemma EnrichingKeepsMentions(members: map<string, Json>, images: seq<Json>, p: string)
    ensures ItemMentions(members[IMAGES := List(images)], p) <==> ItemMentions(members, p)
    ensures Member(members[IMAGES := List(images)], IMAGES) == List(images)
  {
    hide Mentions;
  }

  /**
    An item judged after enrichment, with the files as they are then, is ready exactly when every mentioned path can
    be read and, unless enriching rebuilt the image list, every path of that list can be read too.
   */
  lemma ItemReadyExactly(early: Files, late: Files, members: map<string, Json>)
    ensures Pending(late, Enrich(early, Record(members))) == [] <==>
            MentionedReadable(late, members) && (Images(early, members) != [] || ImagePathsReadable(late, members))
  {
    hide ItemMentions, ImageReferences, Member, Images, Pending;
    if Images(early, members) == [] {
      NothingPendingExactly(late, members);
    } else {
      var images := Images(early, members);
      var enriched := members[IMAGES := List(images)];
      NothingPendingExactly(late, enriched);
      forall p ensures ItemMentions(enriched, p) <==> ItemMentions(members, p) {
        EnrichingKeepsMentions(members, images, p);
      }
      EnrichingKeepsMentions(members, images, "");
      RebuiltListRefersToNothing(early, members);
    }
  }

  /**
    What enriching makes the judgement forget: an unreadable path that only the image list gives, in an item whose
    image list was rebuilt. Everywhere else the enriched and the original item are judged alike.
   */
  lemma EnrichingForgetsExactly(early: Files, late: Files, members: map<string, Json>)
    ensures (Pending(late, Enrich(early, Record(members))) == [] && Pending(late, Record(members)) != [])
            <==> Images(early, members) != [] && MentionedReadable(late, members) && !ImagePathsReadable(late, members)
    ensures Pending(late, Record(members)) == [] ==> Pending(late, Enrich(early, Record(members))) == []
  {
    hide MentionedReadable, ImagePathsReadable, Images, Pending, Enrich;
    ItemReadyExactly(early, late, members);
    NothingPendingExactly(late, members);
  }

  // ---- The artifact ----

  predicate ScreenshotsReady(files: seq<Files>, items: seq<Evidence>)
    requires |files| == |items|
  {
    Dedupe(PendingOf(files, items)) == []
  }

  lemma {:induction false} NothingPendingInAny(files: seq<Files>, items: seq<Evidence>)
    requires |files| == |items|
    ensures PendingOf(files, items) == [] <==> forall i :: 0 <= i < |items| ==> Pending(files[i], items[i]) == []
    ensures forall p | p in PendingOf(files, items) :: exists i :: 0 <= i < |items| && p in Pending(files[i], items[i])
  {
    hide Pending;
    if items != [] {
      var n := |items| - 1;
      NothingPendingInAny(files[..n], items[..n]);
      assert forall i :: 0 <= i < n ==> files[..n][i] == files[i] && items[..n][i] == items[i];
    }
  }

  lemma PendingIsTrimmed(files: Files, e: Evidence, p: string)
    requires p in Pending(files, e)
    ensures Trimmed(p)
  {
    hide LocalPaths, Trimmed, ItemMentions, ImageReferences, Unreadable;
    NothingUnreadable(files, LocalPaths(e.members));
    LocalPathsAre(e.members, p);
    ReferenceIsTrimmed(e.members, p);
  }

  lemma DedupedEmptiness(files: seq<Files>, items: seq<Evidence>)
    requires |files| == |items|
    ensures ScreenshotsReady(files, items) <==> PendingOf(files, items) == []
  {
    hide PendingOf, Pending, Text.TrimSpace;
    var pending := PendingOf(files, items);
    NothingPendingInAny(files, items);
    DedupeKeepsEachOnce(pending);
    if pending != [] {
      var p := pending[0];
      assert p in pending;
      var i :| 0 <= i < |items| && p in Pending(files[i], items[i]);
      PendingIsTrimmed(files[i], items[i], p);
      assert TrimSpace(pending[0]) == p;
      assert p in Dedupe(pending);
    }
  }

  /** What readiness promises about one item: enriched early, judged late. */
  ghost predicate ItemReady(early: Files, late: Files, e: Evidence) {
    e.Record? ==>
      && MentionedReadable(late, e.members)
      && (Images(early, e.members) != [] || ImagePathsReadable(late, e.members))
  }

  /** However the files change from item to item, the artifact is ready exactly when each of its items is. */
  lemma ArtifactReadyExactly(early: seq<Files>, late: seq<Files>, items: seq<Evidence>)
    requires |early| == |late| == |items|
    ensures ScreenshotsReady(late, EnrichAll(early, items)) <==>
            forall i :: 0 <= i < |items| ==> ItemReady(early[i], late[i], items[i])
  {
    hide MentionedReadable, ImagePathsReadable, Images, PendingOf, ScreenshotsReady, Pending, Enrich;
    var enriched := EnrichAll(early, items);
    DedupedEmptiness(late, enriched);
    NothingPendingInAny(late, enriched);
    forall i | 0 <= i < |items|
      ensures Pending(late[i], enriched[i]) == [] <==> ItemReady(early[i], late[i], items[i])
    {
      if items[i].Record? {
        ItemReadyExactly(early[i], late[i], items[i].members);
      } else {
        NoRecordNoPending(early[i], late[i], items[i]);
      }
    }
  }

  lemma NoRecordNoPending(early: Files, late: Files, e: Evidence)
    requires !e.Record?
    ensures Pending(late, Enrich(early, e)) == []
  {
  }
}
