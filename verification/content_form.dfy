/**
  What the two content-manager screens share: the form's sections and
  categories, the attached media items, the file-kind detection, removal of
  an attachment and the byte total of the attachments.
 */
module ContentForm {
  import opened Wrappers
  import opened Text

  datatype Section = Retos | Rutinas | Mente

  datatype Category = Cardio | Fuerza | Yoga | Mindfulness | Alimentacion

  datatype MediaKind = Image | Video | File

  datatype SaveStatus = Draft | Published

  /** The "días de vida ganados" input: still empty, or a number (possibly
      `NaN`). */
  datatype DvgField = DvgBlank | DvgNumber(value: Num)

  /** `Number(diasVidaGanados)`: the empty string converts to 0. */
  function DvgValue(d: DvgField): (v: Num)
    ensures d.DvgNumber? ==> v == d.value
    ensures d.DvgBlank? ==> v == Fin(0)
  {
    match d
    case DvgBlank => Fin(0)
    case DvgNumber(x) => x
  }

  /** The DVG check of a RETOS form: the field is empty or not a number. */
  predicate DvgMissing(d: DvgField) {
    d.DvgBlank? || DvgValue(d).NaN?
  }

  /** A file the user picked, together with the preview URL and the client id
      the page gives it (`URL.createObjectURL` and `uid()` are outside the
      model, so they arrive with the file). */
  datatype SelectedFile = SelectedFile(
    name: string, size: nat, mimeType: string, objectUrl: string, clientId: string)

  /** An attachment of the form. `file` is the picked file still waiting to be
      uploaded; the draft screen never keeps it. */
  datatype MediaItem = MediaItem(
    id: string,
    kind: MediaKind,
    name: string,
    size: nat,
    mimeType: string,
    url: string,
    file: Option<SelectedFile>)

  /** The kind of a file from its MIME type. */
  function DetectKind(mime: string): (k: MediaKind)
    ensures k == Image <==> StartsWith(mime, "image/")
    ensures k == Video <==> !StartsWith(mime, "image/") && StartsWith(mime, "video/")
    ensures k == File <==> !StartsWith(mime, "image/") && !StartsWith(mime, "video/")
  {
    if StartsWith(mime, "image/") then Image
    else if StartsWith(mime, "video/") then Video
    else File
  }

  /** Any `image/…` type is an image and any `video/…` type a video. */
  lemma DetectKindOfPrefix(sub: string)
    ensures DetectKind("image/" + sub) == Image
    ensures DetectKind("video/" + sub) == Video
  {
    assert ("image/" + sub)[..6] == "image/";
    assert ("video/" + sub)[..6] == "video/";
    assert ("video/" + sub)[..6] != "image/" by {
      assert ("video/" + sub)[0] == 'v';
    }
  }

  /** The byte total of the attachments. */
  function TotalBytes(media: seq<MediaItem>): nat {
    if |media| == 0 then 0 else media[0].size + TotalBytes(media[1..])
  }

  lemma {:induction false} TotalBytesAppend(a: seq<MediaItem>, b: seq<MediaItem>)
    ensures TotalBytes(a + b) == TotalBytes(a) + TotalBytes(b)
    decreases |a|
  {
    if |a| == 0 {
      assert a + b == b;
    } else {
      assert (a + b)[1..] == a[1..] + b;
      TotalBytesAppend(a[1..], b);
    }
  }

  /** `removeMedia(id)`: every attachment with that id goes, the others stay
      in their order. */
  function RemoveMedia(media: seq<MediaItem>, id: string): (r: seq<MediaItem>)
    ensures IsSubsequence(r, media)
    ensures forall m :: m in r <==> m in media && m.id != id
    ensures |r| <= |media|
    decreases |media|
  {
    if |media| == 0 then []
    else
      var rest := RemoveMedia(media[1..], id);
      assert forall m :: m in media <==> m == media[0] || m in media[1..];
      if media[0].id != id then
        assert ([media[0]] + rest)[1..] == rest;
        [media[0]] + rest
      else rest
  }

  /** Removal works attachment by attachment: it distributes over
      concatenation, so order and repeats are kept. */
  lemma {:induction false} RemoveMediaAppend(a: seq<MediaItem>, b: seq<MediaItem>, id: string)
    ensures RemoveMedia(a + b, id) == RemoveMedia(a, id) + RemoveMedia(b, id)
    decreases |a|
  {
    if |a| > 0 {
      assert (a + b)[1..] == a[1..] + b;
      RemoveMediaAppend(a[1..], b, id);
    } else {
      assert a + b == b;
    }
  }

  /** A single attachment stays exactly when its id differs. */
  lemma RemoveMediaSingle(m: MediaItem, id: string)
    ensures RemoveMedia([m], id) == if m.id != id then [m] else []
  {
    assert [m][1..] == [];
  }

  /** Removing an id that no attachment carries changes nothing. */
  lemma {:induction false} RemoveUnknownIdKeepsAll(media: seq<MediaItem>, id: string)
    requires forall i :: 0 <= i < |media| ==> media[i].id != id
    ensures RemoveMedia(media, id) == media
    decreases |media|
  {
    if |media| > 0 {
      RemoveUnknownIdKeepsAll(media[1..], id);
      assert [media[0]] + media[1..] == media;
    }
  }

  /** Removing the same id twice is the same as removing it once. */
  lemma RemoveMediaIdempotent(media: seq<MediaItem>, id: string)
    ensures RemoveMedia(RemoveMedia(media, id), id) == RemoveMedia(media, id)
  {
    var once := RemoveMedia(media, id);
    forall i | 0 <= i < |once|
      ensures once[i].id != id
    {
      assert once[i] in once;
    }
    RemoveUnknownIdKeepsAll(once, id);
  }

  /** `textContent?.trim() || …`: a blank text is dropped, any other is kept
      trimmed. */
  function OptionalText(text: string): (r: Option<string>)
    ensures r.None? <==> Trim(text) == ""
    ensures r.Some? ==> r.value == Trim(text) && r.value != ""
  {
    if Trim(text) == "" then None else Some(Trim(text))
  }

  /** The outcome of pressing save: refused by validation (the message is the
      toast), failed while storing, or saved with the record and the success
      toast. */
  datatype SaveOutcome<+T> =
    | Blocked(message: string)
    | Failed(message: string)
    | Saved(record: T, message: string)

  /** The success toast of both screens. */
  function SavedMessage(status: SaveStatus): string {
    if status == Published then "Contenido publicado" else "Borrador guardado"
  }
}
