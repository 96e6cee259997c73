/** What each event does to a composer, and which files it takes, said about the
    items before and after. */
module AttachmentEffects {
  import opened Results
  import opened AttachmentModel

  // ----- Which files are taken -----

  predicate HasType(mime: string, types: seq<string>) {
    mime in types
  }

  predicate Image(f: File) {
    HasType(f.mime, ["image/png", "image/jpeg", "image/webp", "image/gif"])
  }

  predicate Document(f: File) {
    HasType(f.mime, ["application/pdf",
                     "application/vnd.openxmlformats-officedocument.spreadsheetml.sheet",
                     "application/vnd.openxmlformats-officedocument.wordprocessingml.document"])
  }

  /** The name ends, from its last dot on, in one of these, in any case. */
  ghost predicate TextName(name: string) {
    exists d :: 0 <= d < |name| && LastDot(name, d)
                && LowerCase(name[d..]) in [".md", ".markdown", ".txt", ".text", ".log", ".json", ".toml", ".yaml",
                                            ".yml", ".csv", ".tsv", ".xml", ".ini", ".cfg", ".conf", ".env", ".rs",
                                            ".ts", ".tsx", ".js", ".jsx", ".py", ".go", ".java", ".rb", ".sh", ".sql",
                                            ".html", ".css"]
  }

  ghost predicate LastDot(name: string, d: nat)
    requires d < |name|
  {
    name[d] == '.' && forall k :: d < k < |name| ==> name[k] != '.'
  }

  predicate TextByType(f: File) {
    || "text/" <= f.mime
    || HasType(f.mime, ["application/json", "application/toml", "application/x-toml", "application/xml",
                        "application/yaml", "application/x-yaml", "application/x-ndjson"])
  }

  ghost predicate TextFile(f: File) {
    TextByType(f) || TextName(f.name)
  }

  ghost predicate Supported(f: File) {
    Image(f) || Document(f) || TextFile(f)
  }

  lemma {:induction false} LowerCaseLetters(s: string)
    ensures LowerCase("ABCDEFGHIJKLMNOPQRSTUVWXYZ") == "abcdefghijklmnopqrstuvwxyz"
    ensures (forall i :: 0 <= i < |s| ==> !('A' <= s[i] <= 'Z')) ==> LowerCase(s) == s
  {
  }

  lemma {:induction false} LowerCaseSnoc(s: string, c: char)
    ensures LowerCase(s + [c]) == LowerCase(s) + LowerCase([c])
  {
  }

  /** The extension: from the last dot on, in lower case; none without a dot. */
  lemma {:induction false} ExtensionIsLast(name: string)
    ensures ExtensionOf(name) == "" <==> '.' !in name
    ensures forall d :: 0 <= d < |name| && LastDot(name, d) ==> ExtensionOf(name) == LowerCase(name[d..])
    ensures '.' in name ==> exists d :: 0 <= d < |name| && LastDot(name, d)
  {
    if name != "" {
      var n := |name| - 1;
      var before := name[..n];
      ExtensionIsLast(before);
      assert name == before + [name[n]];
      if name[n] == '.' {
        assert LastDot(name, n);
        assert name[n..] == ".";
      } else {
        forall d | 0 <= d < |name| && LastDot(name, d)
          ensures LastDot(before, d) && ExtensionOf(name) == LowerCase(name[d..])
        {
          assert name[d..] == before[d..] + [name[n]];
          LowerCaseSnoc(before[d..], name[n]);
        }
        if '.' in before {
          var d :| 0 <= d < |before| && LastDot(before, d);
          assert LastDot(name, d);
        }
      }
    }
  }

  lemma {:induction false} TypesAre(f: File)
    ensures Image(f) <==> IsImage(f.mime)
    ensures Document(f) <==> f.mime in FILE_MIMES
    ensures HasType(f.mime, ["application/json", "application/toml", "application/x-toml", "application/xml",
                             "application/yaml", "application/x-yaml", "application/x-ndjson"])
       <==> f.mime in TEXT_APP_MIMES
  {
  }

  lemma {:induction false} TextNameIs(name: string)
    ensures TextName(name) <==> ExtensionOf(name) in TEXT_EXTENSIONS
  {
    ExtensionIsLast(name);
  }

  /** A file is refused for its type, or else for being over 10 MiB (an image) or
      32 MiB, and for nothing else. */
  lemma {:induction false} RejectedExactly(f: File)
    ensures RejectReason(f) == Some(UnsupportedType) <==> !Supported(f)
    ensures forall max: nat :: RejectReason(f) == Some(TooLarge(max))
              <==> Supported(f) && f.size > max && max == if Image(f) then 10_485_760 else 33_554_432
    ensures RejectReason(f) == None <==> Supported(f) && f.size <= if Image(f) then 10_485_760 else 33_554_432
  {
    hide IsImage, TextName, ExtensionOf, HasType;
    TypesAre(f);
    TextNameIs(f.name);
  }

  // ----- What each event does -----

  /** The item a file becomes. */
  ghost predicate Begins(f: File, id: string, item: Item) {
    && item.id == id && item.name == f.name && item.mime == f.mime && item.size == f.size && item.attachment == None
    && if Supported(f) && f.size <= (if Image(f) then 10_485_760 else 33_554_432)
       then item.status == Uploading && item.error == None && (item.previewUrl.Some? <==> Image(f))
       else (&& item.status == Failed && item.previewUrl == None
             && item.error == Some(Rejected(if Supported(f) then TooLarge(if Image(f) then 10_485_760 else 33_554_432)
                                            else UnsupportedType)))
  }

  /** How many of `n` files are taken: as many as fit beside the items, up to 8. */
  ghost predicate Fits(items: seq<Item>, n: nat, taken: nat) {
    if |items| + n <= 8 then taken == n else taken == if |items| < 8 then 8 - |items| else 0
  }

  /** The upload's item is answered, and every other item stays. */
  ghost predicate Answers(before: seq<Item>, after: seq<Item>, id: string, status: Status, error: Option<Error>,
                          attachment: Option<Reference>) {
    |after| == |before|
    && forall i :: 0 <= i < |before| ==>
         after[i] == if before[i].id == id
                     then Item(id, before[i].name, before[i].mime, before[i].size, status, error, attachment,
                               before[i].previewUrl)
                     else before[i]
  }

  /** The item of the id goes, and its URL is given back; without one, nothing does. */
  ghost predicate Drops(s: State, s': State, id: string) {
    || (s' == s && forall i :: 0 <= i < |s.items| ==> s.items[i].id != id)
    || (exists k :: 0 <= k < |s.items| && s.items[k].id == id && s'.items == s.items[..k] + s.items[k + 1..]
                    && s'.revoked == s.revoked + if s.items[k].previewUrl.Some? then [s.items[k].previewUrl.value]
                                                 else [])
  }

  ghost predicate Does(s: State, e: Event, s': State) {
    if !s.mounted then s'.items == [] && s'.revoked == s.revoked && !s'.mounted
    else (match e
          case Add(files, ids) =>
            && |files| == |ids| && s'.mounted && s'.revoked == s.revoked
            && exists taken: nat :: taken <= |files| && Fits(s.items, |files|, taken)
                                    && |s'.items| == |s.items| + taken && s'.items[..|s.items|] == s.items
                                    && forall k :: 0 <= k < taken ==> Begins(files[k], ids[k], s'.items[|s.items| + k])
          case Uploaded(id, a) =>
            s' == s.(items := s'.items, inFlight := s.inFlight - {id})
            && Answers(s.items, s'.items, id, Done, None, Some(a))
          case Refused(id, message) =>
            s' == s.(items := s'.items, inFlight := s.inFlight - {id})
            && Answers(s.items, s'.items, id, Failed, Some(UploadFailed(message)), None)
          case Remove(id) => s' == s.(items := s'.items, revoked := s'.revoked) && Drops(s, s', id)
          case Clear => s'.items == [] && s'.mounted && s'.inFlight == s.inFlight && s'.used == s.used
          case Unmount => s'.items == [] && !s'.mounted && s'.inFlight == s.inFlight && s'.used == s.used)
  }

  lemma {:induction false} NewItemBegins(f: File, id: string, nextUrl: nat)
    ensures Begins(f, id, NewItem(f, id, nextUrl))
  {
    hide Supported, Image, IsImage, RejectReason;
    RejectedExactly(f);
    TypesAre(f);
  }

  lemma {:induction false} AddAllDoes(s: State, files: seq<File>, ids: seq<string>)
    requires |files| == |ids|
    ensures var s' := AddAll(s, files, ids);
      && s'.mounted == s.mounted && s'.revoked == s.revoked
      && |s'.items| == |s.items| + |files| && s'.items[..|s.items|] == s.items
      && forall k :: 0 <= k < |files| ==> Begins(files[k], ids[k], s'.items[|s.items| + k])
    decreases |files|
  {
    hide Begins;
    if files != [] {
      var n := |files| - 1;
      AddAllDoes(s, files[..n], ids[..n]);
      var mid := AddAll(s, files[..n], ids[..n]);
      AddOneIs(mid, files[n], ids[n]);
      NewItemBegins(files[n], ids[n], mid.nextUrl);
      var s' := AddOne(mid, files[n], ids[n]);
      assert s'.items[..|s.items|] == mid.items[..|s.items|];
      forall k | 0 <= k < |files|
        ensures Begins(files[k], ids[k], s'.items[|s.items| + k])
      {
        if k < n { assert Begins(files[..n][k], ids[..n][k], mid.items[|s.items| + k]); }
      }
    }
  }

  lemma {:induction false} AddDoes(s: State, files: seq<File>, ids: seq<string>)
    requires s.mounted && |files| == |ids|
    ensures Does(s, Add(files, ids), Step(s, Add(files, ids)))
  {
    hide Begins;
    var n := Taken(s, |files|);
    AddAllDoes(s, files[..n], ids[..n]);
    var s' := AddAll(s, files[..n], ids[..n]);
    assert Fits(s.items, |files|, n);
    forall k | 0 <= k < n
      ensures Begins(files[k], ids[k], s'.items[|s.items| + k])
    {
      assert files[..n][k] == files[k] && ids[..n][k] == ids[k];
    }
  }

  lemma {:induction false} SettleAnswers(s: State, id: string, status: Status, error: Option<Error>,
                                         attachment: Option<Reference>)
    requires Inv(s) && id in s.inFlight
    ensures Answers(s.items, Settle(s.items, id, status, error, attachment), id, status, error, attachment)
  {
    hide Accounted, Settle;
    SettleFacts(s.items, id, status, error, attachment);
    assert forall i :: 0 <= i < |s.items| ==> ItemOk(s, s.items[i]);
  }

  lemma {:induction false} RemoveDoes(s: State, id: string)
    requires DistinctIds(s.items)
    ensures Drops(s, s.(items := Without(s.items, id), revoked := s.revoked + PreviewOf(s.items, id)), id)
  {
    if k :| 0 <= k < |s.items| && s.items[k].id == id {
      WithoutAt(s.items, k);
    } else {
      WithoutIsSame(s.items, id);
      assert s.revoked + [] == s.revoked;
    }
  }

  lemma {:induction false} WithoutAt(items: seq<Item>, k: nat)
    requires k < |items| && DistinctIds(items)
    ensures Without(items, items[k].id) == items[..k] + items[k + 1..]
    ensures PreviewOf(items, items[k].id)
         == if items[k].previewUrl.Some? then [items[k].previewUrl.value] else []
    decreases |items|
  {
    if k == 0 {
      assert forall i :: 0 <= i < |items[1..]| ==> items[1..][i] == items[i + 1];
      WithoutIsSame(items[1..], items[0].id);
      PreviewsOne(items[0]);
    } else {
      assert forall i :: 0 <= i < |items[1..]| ==> items[1..][i] == items[i + 1];
      WithoutAt(items[1..], k - 1);
      assert items[0].id != items[k].id;
      assert items[..k] + items[k + 1..] == [items[0]] + (items[1..][..k - 1] + items[1..][k..]);
    }
  }

  /** What every event does in a state the composer can be in. */
  lemma {:induction false} EveryEventDoes(s: State, e: Event)
    requires Inv(s) && Legal(s, e)
    ensures Does(s, e, Step(s, e))
  {
    hide Begins, Answers, Drops, Settle, Accounted;
    if s.mounted {
      match e {
        case Add(files, ids) => AddDoes(s, files, ids);
        case Uploaded(id, a) => SettleAnswers(s, id, Done, None, Some(a));
        case Refused(id, message) => SettleAnswers(s, id, Failed, Some(UploadFailed(message)), None);
        case Remove(id) => RemoveDoes(s, id);
        case Clear =>
        case Unmount =>
      }
    }
  }

  /** A file goes up as it is, unless it is text by its name alone: then as plain text. */
  lemma {:induction false} UploadedAs(f: File)
    ensures NormalizeForUpload(f) == if TextName(f.name) && !Image(f) && !Document(f) && !TextByType(f)
                                     then f.(mime := "text/plain") else f
  {
    hide IsImage, TextName, ExtensionOf, HasType;
    TypesAre(f);
    TextNameIs(f.name);
  }

  /** Sending waits just while the answer for an item shown is to come. */
  lemma {:induction false} BusyExactly(s: State)
    requires Inv(s)
    ensures Busy(s.items) <==> exists item :: item in s.items && item.id in s.inFlight
  {
    hide Accounted;
    assert forall i :: 0 <= i < |s.items| ==> ItemOk(s, s.items[i]) && s.items[i] in s.items;
  }
}
