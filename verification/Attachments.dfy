/** The composer's hook: its state, changed by each call and each upload's answer. */
module Attachments {
  import opened Results
  import opened AttachmentModel

  class Composer {
    var items: seq<Item>
    var inFlight: set<string>
    var used: set<string>
    var nextUrl: nat
    var revoked: seq<nat>
    var mounted: bool

    constructor ()
      ensures Now() == START && Inv(Now())
    {
      items, inFlight, used, nextUrl, revoked, mounted := [], {}, {}, 0, [], true;
    }

    function Now(): State
      reads this
    {
      State(items, inFlight, used, nextUrl, revoked, mounted)
    }

    method CreateObjectUrl() returns (url: nat)
      modifies this`nextUrl
      ensures url == old(nextUrl) && nextUrl == url + 1
    {
      url := nextUrl;
      nextUrl := nextUrl + 1;
    }

    /** The ids are the ones drawn for the files, in order. */
    method AddFiles(incoming: seq<File>, ids: seq<string>)
      requires |incoming| == |ids|
      modifies this
      ensures Now() == Step(old(Now()), Add(incoming, ids)) && Keeps(old(Now()), Add(incoming, ids), Now())
    {
      ghost var before := Now();
      AddEach(incoming, ids);
      StepKeeps(before, Add(incoming, ids));
    }

    /** The files taken, one by one. */
    method AddEach(incoming: seq<File>, ids: seq<string>)
      requires |incoming| == |ids|
      modifies this
      ensures Now() == Step(old(Now()), Add(incoming, ids))
    {
      hide RejectReason, IsImage, AddOne;
      if !mounted {
        return;
      }
      ghost var before := Now();
      var room := MAX_ATTACHMENTS - |items|;
      var count := if room < 0 then 0 else if |incoming| < room then |incoming| else room;
      assert count == Taken(before, |incoming|);
      var next: seq<Item> := [];
      for i := 0 to count
        invariant Now().(items := items + next) == AddAll(before, incoming[..i], ids[..i])
        invariant items == before.items
      {
        var file, id := incoming[i], ids[i];
        assert incoming[..i + 1][..i] == incoming[..i] && ids[..i + 1][..i] == ids[..i];
        ghost var sofar := AddAll(before, incoming[..i], ids[..i]);
        AddOneIs(sofar, file, id);
        used := used + {id};
        var reason := RejectReason(file);
        if reason.Some? {
          next := next + [Item(id, file.name, file.mime, file.size, Failed, Some(Rejected(reason.value)), None, None)];
        } else {
          var previewUrl := None;
          if IsImage(file.mime) {
            var url := CreateObjectUrl();
            previewUrl := Some(url);
          }
          next := next + [Item(id, file.name, file.mime, file.size, Uploading, None, None, previewUrl)];
          inFlight := inFlight + {id};
        }
        assert items + next == sofar.items + [next[|next| - 1]];
      }
      items := items + next;
    }

    /** An upload came back. */
    method Finish(id: string, attachment: Reference)
      modifies this
      ensures Now() == Step(old(Now()), Uploaded(id, attachment)) && Keeps(old(Now()), Uploaded(id, attachment), Now())
    {
      StepKeeps(Now(), Uploaded(id, attachment));
      inFlight := inFlight - {id};
      if mounted {
        items := Settle(items, id, Done, None, Some(attachment));
      }
    }

    method Fail(id: string, message: string)
      modifies this
      ensures Now() == Step(old(Now()), Refused(id, message)) && Keeps(old(Now()), Refused(id, message), Now())
    {
      StepKeeps(Now(), Refused(id, message));
      inFlight := inFlight - {id};
      if mounted {
        items := Settle(items, id, Failed, Some(UploadFailed(message)), None);
      }
    }

    method Remove(id: string)
      modifies this
      ensures Now() == Step(old(Now()), AttachmentModel.Remove(id))
              && Keeps(old(Now()), AttachmentModel.Remove(id), Now())
    {
      StepKeeps(Now(), AttachmentModel.Remove(id));
      if mounted {
        revoked := revoked + PreviewOf(items, id);
        items := Without(items, id);
      }
    }

    /** Gives back every preview URL in use. */
    method RevokeAll()
      modifies this`revoked
      ensures revoked == old(revoked) + Previews(items)
    {
      for i := 0 to |items|
        invariant revoked == old(revoked) + Previews(items[..i])
      {
        assert items[..i + 1] == items[..i] + [items[i]];
        PreviewsAppend(items[..i], [items[i]]);
        PreviewsOne(items[i]);
        if items[i].previewUrl.Some? {
          revoked := revoked + [items[i].previewUrl.value];
        }
      }
      assert items[..|items|] == items;
    }

    method Clear()
      modifies this
      ensures Now() == Step(old(Now()), AttachmentModel.Clear) && Keeps(old(Now()), AttachmentModel.Clear, Now())
    {
      StepKeeps(Now(), AttachmentModel.Clear);
      if mounted {
        RevokeAll();
        items := [];
      }
    }

    method Unmount()
      modifies this
      ensures Now() == Step(old(Now()), AttachmentModel.Unmount) && Keeps(old(Now()), AttachmentModel.Unmount, Now())
    {
      StepKeeps(Now(), AttachmentModel.Unmount);
      if mounted {
        RevokeAll();
        items := [];
        mounted := false;
      }
    }
  }
}
