/** A composer's pending attachments: which files are taken, and what adding,
    finishing, removing, clearing and closing do to items and preview URLs. */
module AttachmentModel {
  import opened Results

  // ----- Files -----

  datatype File = File(name: string, mime: string, size: nat)
  datatype Reference = Reference(url: string, mime: string, filename: string, size: nat)

  const IMAGE_MIMES: set<string> := {"image/png", "image/jpeg", "image/webp", "image/gif"}

  const FILE_MIMES: set<string> := {
    "application/pdf",
    "application/vnd.openxmlformats-officedocument.spreadsheetml.sheet",
    "application/vnd.openxmlformats-officedocument.wordprocessingml.document"
  }

  const TEXT_APP_MIMES: set<string> := {
    "application/json", "application/toml", "application/x-toml", "application/xml",
    "application/yaml", "application/x-yaml", "application/x-ndjson"
  }

  const TEXT_EXTENSIONS: set<string> := {
    ".md", ".markdown", ".txt", ".text", ".log", ".json", ".toml", ".yaml", ".yml", ".csv", ".tsv", ".xml",
    ".ini", ".cfg", ".conf", ".env", ".rs", ".ts", ".tsx", ".js", ".jsx", ".py", ".go", ".java", ".rb", ".sh",
    ".sql", ".html", ".css"
  }

  const MAX_IMAGE_BYTES := 10 * 1024 * 1024
  const MAX_FILE_BYTES := 32 * 1024 * 1024
  const MAX_ATTACHMENTS := 8

  function LowerCase(s: string): string {
    seq(|s|, (i: nat) requires i < |s| => if 'A' <= s[i] <= 'Z' then (s[i] as int + 32) as char else s[i])
  }

  /** From the last dot on, in lower case; nothing without a dot. */
  function ExtensionOf(name: string): string {
    if name == "" then "" else if name[|name| - 1] == '.' then LowerCase(".")
                          else
      var before := ExtensionOf(name[..|name| - 1]);
      if before == "" then "" else before + LowerCase([name[|name| - 1]])
  }

  predicate IsImage(mime: string) { mime in IMAGE_MIMES }

  predicate IsText(f: File) {
    "text/" <= f.mime || f.mime in TEXT_APP_MIMES || ExtensionOf(f.name) in TEXT_EXTENSIONS
  }

  predicate ServerKnows(f: File) {
    IsImage(f.mime) || f.mime in FILE_MIMES || "text/" <= f.mime || f.mime in TEXT_APP_MIMES
  }

  datatype Reason = UnsupportedType | TooLarge(max: nat)

  function RejectReason(f: File): Option<Reason> {
    if !(IsImage(f.mime) || f.mime in FILE_MIMES || IsText(f)) then Some(UnsupportedType)
    else
      var cap := if IsImage(f.mime) then MAX_IMAGE_BYTES else MAX_FILE_BYTES;
      if f.size > cap then Some(TooLarge(cap)) else None
  }

  function NormalizeForUpload(f: File): File {
    if IsText(f) && !ServerKnows(f) then f.(mime := "text/plain") else f
  }

  /** Every file that is not rejected reaches the server under a type it knows. */
  lemma {:induction false} AcceptedIsKnown(f: File)
    requires RejectReason(f).None?
    ensures ServerKnows(NormalizeForUpload(f)) && NormalizeForUpload(f).name == f.name
            && NormalizeForUpload(f).size == f.size
  {
    assert "text/" == "text/plain"[..5];
    assert "text/" <= "text/plain";
  }

  // ----- Items -----

  datatype Error = Rejected(reason: Reason) | UploadFailed(message: string)
  datatype Status = Uploading | Done | Failed

  datatype Item = Item(id: string, name: string, mime: string, size: nat, status: Status, error: Option<Error>,
                       attachment: Option<Reference>, previewUrl: Option<nat>)

  /** The composer's state. Object URLs are numbered as they are made; `revoked`
      lists those given back; `inFlight` are the uploads not yet answered. */
  datatype State = State(items: seq<Item>, inFlight: set<string>, used: set<string>, nextUrl: nat, revoked: seq<nat>,
                         mounted: bool)

  const START := State([], {}, {}, 0, [], true)

  datatype Event =
    | Add(files: seq<File>, ids: seq<string>)
    | Uploaded(id: string, attachment: Reference)
    | Refused(id: string, message: string)
    | Remove(id: string)
    | Clear
    | Unmount

  function AddOne(s: State, f: File, id: string): State {
    var item := Item(id, f.name, f.mime, f.size, Failed, None, None, None);
    match RejectReason(f)
    case Some(reason) => s.(items := s.items + [item.(error := Some(Rejected(reason)))], used := s.used + {id})
    case None =>
      var up := item.(status := Uploading);
      if IsImage(f.mime)
      then s.(items := s.items + [up.(previewUrl := Some(s.nextUrl))], nextUrl := s.nextUrl + 1,
          inFlight := s.inFlight + {id}, used := s.used + {id})
      else s.(items := s.items + [up], inFlight := s.inFlight + {id}, used := s.used + {id})
  }

  function AddAll(s: State, files: seq<File>, ids: seq<string>): State
    requires |files| == |ids|
  {
    if files == [] then s
    else AddOne(AddAll(s, files[..|files| - 1], ids[..|ids| - 1]), files[|files| - 1], ids[|ids| - 1])
  }

  function Room(s: State): nat {
    if |s.items| >= MAX_ATTACHMENTS then 0 else MAX_ATTACHMENTS - |s.items|
  }

  function Taken(s: State, n: nat): nat {
    if n < Room(s) then n else Room(s)
  }

  /** Setting the item of an id, whatever its state. */
  function Settle(items: seq<Item>, id: string, status: Status, error: Option<Error>,
                  attachment: Option<Reference>): seq<Item> {
    if items == [] then []
    else [if items[0].id == id
          then items[0].(status := status, error := if error.Some? then error else items[0].error,
                         attachment := if attachment.Some? then attachment else items[0].attachment)
          else items[0]]
         + Settle(items[1..], id, status, error, attachment)
  }

  function Without(items: seq<Item>, id: string): seq<Item> {
    if items == [] then [] else (if items[0].id == id then [] else [items[0]]) + Without(items[1..], id)
  }

  /** The preview URLs of some items, in order. */
  function Previews(items: seq<Item>): seq<nat> {
    if items == [] then []
    else (if items[0].previewUrl.Some? then [items[0].previewUrl.value] else []) + Previews(items[1..])
  }

  function PreviewOf(items: seq<Item>, id: string): seq<nat> {
    if items == [] then [] else if items[0].id == id then Previews([items[0]]) else PreviewOf(items[1..], id)
  }

  function Step(s: State, e: Event): State
    requires e.Add? ==> |e.files| == |e.ids|
  {
    match e
    case Add(files, ids) => if s.mounted then AddAll(s, files[..Taken(s, |files|)], ids[..Taken(s, |files|)]) else s
    case Uploaded(id, a) =>
      s.(inFlight := s.inFlight - {id},
         items := if s.mounted then Settle(s.items, id, Done, None, Some(a)) else s.items)
    case Refused(id, message) =>
      s.(inFlight := s.inFlight - {id},
         items := if s.mounted then Settle(s.items, id, Failed, Some(UploadFailed(message)), None) else s.items)
    case Remove(id) =>
      if s.mounted then s.(items := Without(s.items, id), revoked := s.revoked + PreviewOf(s.items, id)) else s
    case Clear =>
      if s.mounted then s.(items := [], revoked := s.revoked + Previews(s.items)) else s
    case Unmount =>
      if s.mounted then s.(items := [], revoked := s.revoked + Previews(s.items), mounted := false) else s
  }

  /** Ids are new, and an upload is answered once. */
  ghost predicate Legal(s: State, e: Event) {
    match e
    case Add(files, ids) =>
      |files| == |ids| && (forall i :: 0 <= i < |ids| ==> ids[i] !in s.used)
          && forall i, j :: 0 <= i < j < |ids| ==> ids[i] != ids[j]
    case Uploaded(id, _) => id in s.inFlight
    case Refused(id, _) => id in s.inFlight
    case _ => true
  }

  ghost predicate Run(s: State, es: seq<Event>, s': State)
    decreases |es|
  {
    if es == [] then s' == s else Legal(s, es[0]) && Run(Step(s, es[0]), es[1..], s')
  }

  // ----- What every run keeps -----

  ghost predicate ItemOk(s: State, item: Item) {
    && item.id in s.used
    && (item.status == Uploading <==> item.id in s.inFlight)
    && (item.status == Done <==> item.attachment.Some?)
    && (item.status == Failed <==> item.error.Some?)
  }

  ghost predicate DistinctIds(items: seq<Item>) {
    forall i, j :: 0 <= i < j < |items| ==> items[i].id != items[j].id
  }

  /** The URLs held and the URLs given back. */
  ghost function Ledger(s: State): multiset<nat> {
    multiset(Previews(s.items)) + multiset(s.revoked)
  }

  /** Every URL made is held by one item or was given back, once in all. */
  ghost predicate Accounted(s: State) {
    forall u: nat :: Ledger(s)[u] == if u < s.nextUrl then 1 else 0
  }

  lemma {:induction false} SameLedger(s: State, s': State)
    requires Accounted(s) && Ledger(s') == Ledger(s) && s'.nextUrl == s.nextUrl
    ensures Accounted(s')
  {
    forall u: nat
      ensures Ledger(s')[u] == if u < s'.nextUrl then 1 else 0
    {
      assert Ledger(s)[u] == if u < s.nextUrl then 1 else 0;
    }
  }

  ghost predicate Inv(s: State) {
    && |s.items| <= 8
    && DistinctIds(s.items)
    && (forall i :: 0 <= i < |s.items| ==> ItemOk(s, s.items[i]))
    && s.inFlight <= s.used
    && Accounted(s)
    && (!s.mounted ==> s.items == [])
  }

  lemma {:induction false} PreviewsAppend(a: seq<Item>, b: seq<Item>)
    ensures Previews(a + b) == Previews(a) + Previews(b)
    decreases |a|
  {
    if a == [] {
      assert a + b == b;
    } else {
      assert (a + b)[1..] == a[1..] + b && (a + b)[0] == a[0];
      PreviewsAppend(a[1..], b);
      JoinAssoc(if a[0].previewUrl.Some? then [a[0].previewUrl.value] else [], Previews(a[1..]), Previews(b));
    }
  }

  lemma {:induction false} PreviewsOne(item: Item)
    ensures Previews([item]) == if item.previewUrl.Some? then [item.previewUrl.value] else []
  {
    assert [item][1..] == [];
  }

  /** The item `AddOne` appends. */
  function NewItem(f: File, id: string, nextUrl: nat): Item {
    var item := Item(id, f.name, f.mime, f.size, Failed, None, None, None);
    match RejectReason(f)
    case Some(reason) => item.(error := Some(Rejected(reason)))
    case None => item.(status := Uploading, previewUrl := if IsImage(f.mime) then Some(nextUrl) else None)
  }

  lemma {:induction false} AddOneIs(s: State, f: File, id: string)
    ensures var item := NewItem(f, id, s.nextUrl);
      AddOne(s, f, id) == s.(items := s.items + [item], used := s.used + {id},
                             inFlight := if item.status == Uploading then s.inFlight + {id} else s.inFlight,
                             nextUrl := if item.previewUrl.Some? then s.nextUrl + 1 else s.nextUrl)
  {
  }

  lemma {:induction false} AddOneUrls(s: State, item: Item, s': State)
    requires Accounted(s) && s'.items == s.items + [item] && s'.revoked == s.revoked
    requires item.previewUrl.Some? ==> item.previewUrl.value == s.nextUrl
    requires s'.nextUrl == if item.previewUrl.Some? then s.nextUrl + 1 else s.nextUrl
    ensures Accounted(s')
  {
    PreviewsAppend(s.items, [item]);
    PreviewsOne(item);
    if item.previewUrl.Some? {
      assert Ledger(s') == Ledger(s) + multiset{s.nextUrl};
      OneMore(s, s');
    } else {
      assert Previews(s'.items) == Previews(s.items);
      SameLedger(s, s');
    }
  }

  lemma {:induction false} OneMore(s: State, s': State)
    requires Accounted(s) && Ledger(s') == Ledger(s) + multiset{s.nextUrl} && s'.nextUrl == s.nextUrl + 1
    ensures Accounted(s')
  {
    forall u: nat
      ensures Ledger(s')[u] == if u < s'.nextUrl then 1 else 0
    {
      assert Ledger(s)[u] == if u < s.nextUrl then 1 else 0;
    }
  }

  lemma {:induction false} AddOneItems(s: State, item: Item, s': State)
    requires DistinctIds(s.items) && item.id !in s.used && (forall i :: 0 <= i < |s.items| ==> ItemOk(s, s.items[i]))
    requires s'.items == s.items + [item] && s'.used == s.used + {item.id} && s.inFlight <= s.used
    requires s'.inFlight == if item.status == Uploading then s.inFlight + {item.id} else s.inFlight
    requires item.attachment.None? && item.status != Done && (item.status == Failed <==> item.error.Some?)
    ensures DistinctIds(s'.items) && s'.inFlight <= s'.used
            && forall i :: 0 <= i < |s'.items| ==> ItemOk(s', s'.items[i])
  {
    forall i | 0 <= i < |s'.items|
      ensures ItemOk(s', s'.items[i])
    {
      if i < |s.items| { assert ItemOk(s, s.items[i]); }
    }
    forall i, j | 0 <= i < j < |s'.items|
      ensures s'.items[i].id != s'.items[j].id
    {
      assert ItemOk(s, s.items[i]);
    }
  }

  lemma {:induction false} AddOneKeepsInv(s: State, f: File, id: string)
    requires Inv(s) && s.mounted && |s.items| < MAX_ATTACHMENTS && id !in s.used
    ensures Inv(AddOne(s, f, id)) && AddOne(s, f, id).mounted && AddOne(s, f, id).used == s.used + {id}
    ensures |AddOne(s, f, id).items| == |s.items| + 1 && AddOne(s, f, id).items[..|s.items|] == s.items
  {
    AddOneIs(s, f, id);
    AddOneUrls(s, NewItem(f, id, s.nextUrl), AddOne(s, f, id));
    AddOneItems(s, NewItem(f, id, s.nextUrl), AddOne(s, f, id));
  }

  lemma {:induction false} AddAllKeepsInv(s: State, files: seq<File>, ids: seq<string>)
    requires Inv(s) && s.mounted && |files| == |ids| && |s.items| + |files| <= MAX_ATTACHMENTS
    requires (forall i :: 0 <= i < |ids| ==> ids[i] !in s.used)
             && forall i, j :: 0 <= i < j < |ids| ==> ids[i] != ids[j]
    ensures var s' := AddAll(s, files, ids);
      && Inv(s') && s'.mounted && |s'.items| == |s.items| + |files| && s'.items[..|s.items|] == s.items
      && (forall id :: id in s'.used <==> id in s.used || id in ids)
    decreases |files|
  {
    if files != [] {
      var n := |files| - 1;
      AddAllKeepsInv(s, files[..n], ids[..n]);
      var mid := AddAll(s, files[..n], ids[..n]);
      assert ids[n] !in mid.used;
      AddOneKeepsInv(mid, files[n], ids[n]);
      assert ids == ids[..n] + [ids[n]];
      assert AddAll(s, files, ids).items[..|s.items|] == mid.items[..|s.items|];
    }
  }

  lemma {:induction false} SettleFacts(items: seq<Item>, id: string, status: Status, error: Option<Error>,
                                       attachment: Option<Reference>)
    ensures var r := Settle(items, id, status, error, attachment);
      && |r| == |items| && Previews(r) == Previews(items)
      && forall i :: 0 <= i < |r| ==>
           r[i] == if items[i].id != id then items[i]
                   else items[i].(status := status, error := if error.Some? then error else items[i].error,
                                  attachment := if attachment.Some? then attachment else items[i].attachment)
    decreases |items|
  {
    if items != [] {
      SettleFacts(items[1..], id, status, error, attachment);
      var r := Settle(items, id, status, error, attachment);
      assert r[1..] == Settle(items[1..], id, status, error, attachment);
      assert items == [items[0]] + items[1..] && r == [r[0]] + r[1..];
      PreviewsAppend([items[0]], items[1..]);
      PreviewsAppend([r[0]], r[1..]);
      PreviewsOne(items[0]);
      PreviewsOne(r[0]);
    }
  }

  lemma {:induction false} SettleKeepsInv(s: State, id: string, status: Status, error: Option<Error>,
                                          attachment: Option<Reference>)
    requires Inv(s) && s.mounted && id in s.inFlight
    requires (status == Done && attachment.Some? && error.None?)
             || (status == Failed && error.Some? && attachment.None?)
    ensures Inv(s.(inFlight := s.inFlight - {id}, items := Settle(s.items, id, status, error, attachment)))
  {
    hide Settle, ItemOk, Accounted, Previews;
    var s' := s.(inFlight := s.inFlight - {id}, items := Settle(s.items, id, status, error, attachment));
    SettleFacts(s.items, id, status, error, attachment);
    SameLedger(s, s');
    forall i | 0 <= i < |s'.items|
      ensures ItemOk(s', s'.items[i])
    {
      SettleItemOk(s, s.items[i], id, status, error, attachment, s', s'.items[i]);
    }
  }

  lemma {:induction false} SettleItemOk(s: State, item: Item, id: string, status: Status, error: Option<Error>,
                                        attachment: Option<Reference>, s': State, item': Item)
    requires ItemOk(s, item) && id in s.inFlight && s'.inFlight == s.inFlight - {id} && s'.used == s.used
    requires (status == Done && attachment.Some? && error.None?)
             || (status == Failed && error.Some? && attachment.None?)
    requires item' == if item.id != id then item
                      else item.(status := status, error := if error.Some? then error else item.error,
                                 attachment := if attachment.Some? then attachment else item.attachment)
    ensures ItemOk(s', item')
  {
  }

  lemma {:induction false} WithoutIsSame(items: seq<Item>, id: string)
    requires forall i :: 0 <= i < |items| ==> items[i].id != id
    ensures Without(items, id) == items && PreviewOf(items, id) == []
    decreases |items|
  {
    if items != [] { WithoutIsSame(items[1..], id); }
  }

  lemma {:induction false} WithoutItems(items: seq<Item>, id: string)
    ensures forall item :: item in Without(items, id) <==> item in items && item.id != id
    ensures |Without(items, id)| <= |items|
    decreases |items|
  {
    if items != [] {
      WithoutItems(items[1..], id);
      assert items == [items[0]] + items[1..];
    }
  }

  lemma {:induction false} WithoutStaysDistinct(items: seq<Item>, id: string)
    requires DistinctIds(items)
    ensures DistinctIds(Without(items, id))
    decreases |items|
  {
    if items != [] {
      var rest := Without(items[1..], id);
      WithoutStaysDistinct(items[1..], id);
      WithoutItems(items[1..], id);
      forall j | 0 <= j < |rest|
        ensures rest[j].id != items[0].id
      {
        assert rest[j] in items[1..];
      }
    }
  }

  /** Removing an item gives its URL back, and no other. */
  lemma {:induction false} WithoutUrls(items: seq<Item>, id: string)
    requires DistinctIds(items)
    ensures multiset(Previews(Without(items, id))) + multiset(PreviewOf(items, id)) == multiset(Previews(items))
    decreases |items|
  {
    if items != [] {
      var x, rest := items[0], items[1..];
      assert items == [x] + rest;
      PreviewsAppend([x], rest);
      if x.id == id {
        forall i | 0 <= i < |rest|
          ensures rest[i].id != id
        {
          assert items[0].id != items[i + 1].id;
        }
        WithoutIsSame(rest, id);
        assert Without(items, id) == rest;
      } else {
        WithoutUrls(rest, id);
        PreviewsAppend([x], Without(rest, id));
      }
    }
  }

  lemma {:induction false} RemoveKeepsInv(s: State, id: string)
    requires Inv(s) && s.mounted
    ensures Inv(s.(items := Without(s.items, id), revoked := s.revoked + PreviewOf(s.items, id)))
  {
    var s' := s.(items := Without(s.items, id), revoked := s.revoked + PreviewOf(s.items, id));
    WithoutItems(s.items, id);
    WithoutStaysDistinct(s.items, id);
    WithoutUrls(s.items, id);
    forall i | 0 <= i < |s'.items|
      ensures ItemOk(s', s'.items[i])
    {
      assert s'.items[i] in s.items;
      var j :| 0 <= j < |s.items| && s.items[j] == s'.items[i];
      assert ItemOk(s, s.items[j]);
    }
    assert Ledger(s') == Ledger(s);
    SameLedger(s, s');
  }

  lemma {:induction false} DropAllKeepsInv(s: State, mounted: bool)
    requires Inv(s) && s.mounted
    ensures Inv(s.(items := [], revoked := s.revoked + Previews(s.items), mounted := mounted))
  {
    var s' := s.(items := [], revoked := s.revoked + Previews(s.items), mounted := mounted);
    assert Ledger(s') == Ledger(s);
    SameLedger(s, s');
  }

  lemma {:induction false} StepKeepsInv(s: State, e: Event)
    requires Inv(s) && Legal(s, e)
    ensures Inv(Step(s, e))
  {
    if s.mounted {
      match e {
        case Add(files, ids) => AddAllKeepsInv(s, files[..Taken(s, |files|)], ids[..Taken(s, |files|)]);
        case Uploaded(id, a) => SettleKeepsInv(s, id, Done, None, Some(a));
        case Refused(id, message) => SettleKeepsInv(s, id, Failed, Some(UploadFailed(message)), None);
        case Remove(id) => RemoveKeepsInv(s, id);
        case Clear => DropAllKeepsInv(s, true);
        case Unmount => DropAllKeepsInv(s, false);
      }
    } else {
      SameLedger(s, Step(s, e));
    }
  }

  /** What an event keeps of a state that it may happen in. */
  ghost predicate Keeps(s: State, e: Event, s': State) {
    Inv(s) && Legal(s, e) ==> Inv(s')
  }

  lemma {:induction false} StepKeeps(s: State, e: Event)
    requires e.Add? ==> |e.files| == |e.ids|
    ensures Keeps(s, e, Step(s, e))
  {
    if Inv(s) && Legal(s, e) { StepKeepsInv(s, e); }
  }

  /** In every run: at most 8 items, one upload per item, and each preview URL
      held by one item or given back once. */
  lemma {:induction false} RunKeepsInv(s: State, es: seq<Event>, s': State)
    requires Inv(s) && Run(s, es, s')
    ensures Inv(s')
    decreases |es|
  {
    if es != [] {
      StepKeepsInv(s, es[0]);
      RunKeepsInv(Step(s, es[0]), es[1..], s');
    }
  }

  /** After closing, every URL ever made has been given back, once. */
  lemma {:induction false} NothingLeaks(es: seq<Event>, s': State)
    requires Run(START, es, s') && !s'.mounted
    ensures forall u: nat :: multiset(s'.revoked)[u] == if u < s'.nextUrl then 1 else 0
  {
    assert Inv(START);
    RunKeepsInv(START, es, s');
    assert Ledger(s') == multiset(s'.revoked);
  }

  // ----- One item over a run -----

  /** An item that is no longer uploading. */
  ghost predicate Settled(s: State, item: Item) {
    item in s.items && item.status != Uploading
  }

  ghost predicate Gone(s: State, id: string) {
    id in s.used && forall i :: 0 <= i < |s.items| ==> s.items[i].id != id
  }

  lemma {:induction false} AddAllGone(s: State, files: seq<File>, ids: seq<string>, id: string)
    requires |files| == |ids| && Gone(s, id) && id !in ids
    ensures Gone(AddAll(s, files, ids), id)
    decreases |files|
  {
    if files != [] {
      var n := |files| - 1;
      AddAllGone(s, files[..n], ids[..n], id);
      AddOneIs(AddAll(s, files[..n], ids[..n]), files[n], ids[n]);
    }
  }

  /** An id once removed does not come back; answers to its upload change nothing. */
  lemma {:induction false} GoneStep(s: State, e: Event, id: string)
    requires Inv(s) && Legal(s, e) && Gone(s, id)
    ensures Gone(Step(s, e), id)
    ensures (e.Uploaded? || e.Refused?) && e.id == id ==> Step(s, e).items == s.items
  {
    hide Inv, AddAll, Settle, Without, Previews;
    match e {
      case Add(files, ids) =>
        if s.mounted { AddAllGone(s, files[..Taken(s, |files|)], ids[..Taken(s, |files|)], id); }
      case Uploaded(i, a) => SettleFacts(s.items, i, Done, None, Some(a));
      case Refused(i, message) => SettleFacts(s.items, i, Failed, Some(UploadFailed(message)), None);
      case Remove(i) => WithoutItems(s.items, i);
      case Clear =>
      case Unmount =>
    }
  }

  /** An id once removed never comes back, whatever happens next. */
  lemma {:induction false} GoneStays(s: State, es: seq<Event>, s': State, id: string)
    requires Inv(s) && Run(s, es, s') && Gone(s, id)
    ensures Gone(s', id)
    decreases |es|
  {
    hide Inv, Gone, Step;
    if es != [] {
      StepKeepsInv(s, es[0]);
      GoneStep(s, es[0], id);
      GoneStays(Step(s, es[0]), es[1..], s', id);
    }
  }

  lemma {:induction false} AddAllKeepsItems(s: State, files: seq<File>, ids: seq<string>, item: Item)
    requires |files| == |ids| && item in s.items
    ensures item in AddAll(s, files, ids).items
    decreases |files|
  {
    if files != [] {
      var n := |files| - 1;
      AddAllKeepsItems(s, files[..n], ids[..n], item);
      AddOneIs(AddAll(s, files[..n], ids[..n]), files[n], ids[n]);
    }
  }

  /** An item leaves `uploading` once: after that it stays as it is, or goes. */
  lemma {:induction false} SettledStays(s: State, e: Event, item: Item)
    requires Inv(s) && Legal(s, e) && Settled(s, item)
    ensures Settled(Step(s, e), item) || Gone(Step(s, e), item.id)
  {
    var k :| 0 <= k < |s.items| && s.items[k] == item;
    assert ItemOk(s, s.items[k]);
    match e {
      case Add(files, ids) =>
        if s.mounted { AddAllKeepsItems(s, files[..Taken(s, |files|)], ids[..Taken(s, |files|)], item); }
      case Uploaded(i, a) =>
        SettleFacts(s.items, i, Done, None, Some(a));
        assert s.mounted ==> Step(s, e).items[k] == item;
      case Refused(i, message) =>
        SettleFacts(s.items, i, Failed, Some(UploadFailed(message)), None);
        assert s.mounted ==> Step(s, e).items[k] == item;
      case Remove(i) => WithoutItems(s.items, i);
      case Clear =>
      case Unmount =>
    }
  }

  lemma {:induction false} SettledOverRuns(s: State, es: seq<Event>, s': State, item: Item)
    requires Inv(s) && Run(s, es, s') && (Settled(s, item) || Gone(s, item.id))
    ensures Settled(s', item) || Gone(s', item.id)
    decreases |es|
  {
    if es != [] {
      StepKeepsInv(s, es[0]);
      if Gone(s, item.id) { GoneStep(s, es[0], item.id); } else { SettledStays(s, es[0], item); }
      SettledOverRuns(Step(s, es[0]), es[1..], s', item);
    }
  }

  // ----- What is ready -----

  /** The uploaded references, in order. */
  function Ready(items: seq<Item>): seq<Reference> {
    if items == [] then []
    else (if items[0].status == Done && items[0].attachment.Some? then [items[0].attachment.value] else [])
          + Ready(items[1..])
  }

  predicate Busy(items: seq<Item>) {
    exists i :: 0 <= i < |items| && items[i].status == Uploading
  }

  /** The places of the items done, in order. */
  function DoneAt(items: seq<Item>, n: nat): seq<nat>
    requires n <= |items|
  {
    if n == 0 then [] else DoneAt(items, n - 1) + if items[n - 1].status == Done then [n - 1] else []
  }

  /** `at` lists the items done, each once, in order. */
  ghost predicate ListsDone(items: seq<Item>, n: nat, at: seq<nat>)
    requires n <= |items|
  {
    && (forall k :: 0 <= k < |at| ==> at[k] < n)
    && (forall j, k :: 0 <= j < k < |at| ==> at[j] < at[k])
    && (forall i: nat :: i < n ==> (items[i].status == Done <==> i in at))
  }

  lemma {:induction false} DoneAtLists(items: seq<Item>, n: nat)
    requires n <= |items|
    ensures ListsDone(items, n, DoneAt(items, n))
  {
    if n > 0 { DoneAtLists(items, n - 1); }
  }

  lemma {:induction false} ReadySnoc(items: seq<Item>, x: Item)
    ensures Ready(items + [x]) == Ready(items) + Ready([x])
    decreases |items|
  {
    if items == [] {
      assert [] + [x] == [x];
    } else {
      assert (items + [x])[1..] == items[1..] + [x];
      ReadySnoc(items[1..], x);
    }
  }

  lemma {:induction false} ReadyOfDone(items: seq<Item>, n: nat)
    requires n <= |items| && forall i :: 0 <= i < n && items[i].status == Done ==> items[i].attachment.Some?
    ensures |Ready(items[..n])| == |DoneAt(items, n)|
    ensures forall k :: 0 <= k < |DoneAt(items, n)| ==>
              DoneAt(items, n)[k] < n && items[DoneAt(items, n)[k]].attachment == Some(Ready(items[..n])[k])
  {
    if n > 0 {
      ReadyOfDone(items, n - 1);
      var x := items[n - 1];
      assert items[..n] == items[..n - 1] + [x];
      ReadySnoc(items[..n - 1], x);
      assert Ready([x]) == if x.status == Done then [x.attachment.value] else [] by { assert [x][1..] == []; }
    }
  }

  /** At every moment `ready` is the references of exactly the items done, in item order. */
  lemma {:induction false} ReadyExactly(es: seq<Event>, s: State)
    requires Run(START, es, s)
    ensures var at := DoneAt(s.items, |s.items|);
      && ListsDone(s.items, |s.items|, at) && |Ready(s.items)| == |at|
      && forall k :: 0 <= k < |at| ==> s.items[at[k]].attachment == Some(Ready(s.items)[k])
  {
    assert Inv(START);
    RunKeepsInv(START, es, s);
    forall i | 0 <= i < |s.items| && s.items[i].status == Done
      ensures s.items[i].attachment.Some?
    {
      assert ItemOk(s, s.items[i]);
    }
    DoneAtLists(s.items, |s.items|);
    ReadyOfDone(s.items, |s.items|);
    assert s.items[..|s.items|] == s.items;
  }

  lemma {:induction false} ReadyIs(items: seq<Item>)
    requires forall i :: 0 <= i < |items| ==> items[i].status == Done && items[i].attachment.Some?
    ensures |Ready(items)| == |items| && forall i :: 0 <= i < |items| ==> Ready(items)[i] == items[i].attachment.value
    decreases |items|
  {
    if items != [] { ReadyIs(items[1..]); }
  }

  /** When nothing is in flight and nothing failed, every item is ready, in its place. */
  lemma {:induction false} IdleIsReady(s: State)
    requires Inv(s) && !Busy(s.items) && forall i :: 0 <= i < |s.items| ==> s.items[i].error.None?
    ensures |Ready(s.items)| == |s.items|
    ensures forall i :: 0 <= i < |s.items| ==> Some(Ready(s.items)[i]) == s.items[i].attachment
  {
    forall i | 0 <= i < |s.items|
      ensures s.items[i].status == Done && s.items[i].attachment.Some?
    {
      assert ItemOk(s, s.items[i]);
    }
    ReadyIs(s.items);
  }
}
