/**
  The publishing content manager (`pages/admin/AdminContentManager.tsx`):
  the list of form errors, file selection without limits, the upload of
  pending files and the request body sent to the content endpoint.
 */
module ContentPublish {
  import opened Wrappers
  import opened Text
  import opened ContentForm
  import ContentDraft

  /** The publishing screen's form; an absent category or section is what the
      `!categoria` and `!section` tests look for. */
  datatype PublishForm = PublishForm(
    adminName: string,
    section: Option<Section>,
    title: string,
    description: string,
    dvg: DvgField,
    category: Option<Category>,
    textContent: string)

  const TitleError := "Falta el nombre del contenido."
  const DescriptionError := "Falta la descripción."
  const CategoryError := "Falta la categoría."
  const SectionError := "Falta la sección."
  const DvgError := "En RETOS debes indicar los Días de Vida Ganados (número)."

  /** Every error message, in the order the checks run. */
  const ErrorOrder := [TitleError, DescriptionError, CategoryError, SectionError, DvgError]

  /** The message of one check when it fails. */
  function When(fails: bool, message: string): seq<string> {
    if fails then [message] else []
  }

  /** Adding one check in front keeps the list ordered and adds at most its
      own message. */
  lemma WhenPrepend(fails: bool, m: string, rest: seq<string>, order: seq<string>)
    requires IsSubsequence(rest, order)
    ensures IsSubsequence(When(fails, m) + rest, [m] + order)
    ensures forall x :: x in When(fails, m) + rest <==> (fails && x == m) || x in rest
  {
    if fails {
      assert ([m] + rest)[1..] == rest;
      assert ([m] + order)[1..] == order;
    } else {
      assert When(fails, m) + rest == rest;
      assert ([m] + order)[1..] == order;
      if |rest| > 0 {
        assert IsSubsequence(rest, ([m] + order)[1..]);
      }
    }
  }

  lemma ErrorsDistinct()
    ensures TitleError != DescriptionError && TitleError != CategoryError && TitleError != SectionError
    ensures DescriptionError != CategoryError && DescriptionError != SectionError
    ensures CategoryError != SectionError
    ensures DvgError != TitleError && DvgError != DescriptionError
    ensures DvgError != CategoryError && DvgError != SectionError
  {
    assert |TitleError| == 30 && |DescriptionError| == 21 && |CategoryError| == 19;
    assert |SectionError| == 17 && |DvgError| == 57;
  }

  /** The messages of the failing checks, given which checks fail. */
  function ErrorList(noTitle: bool, noDescription: bool, noCategory: bool, noSection: bool, noDvg: bool)
    : (r: seq<string>)
    ensures TitleError in r <==> noTitle
    ensures DescriptionError in r <==> noDescription
    ensures CategoryError in r <==> noCategory
    ensures SectionError in r <==> noSection
    ensures DvgError in r <==> noDvg
    ensures IsSubsequence(r, ErrorOrder)
  {
    var e := When(noDvg, DvgError);
    var s := When(noSection, SectionError);
    var c := When(noCategory, CategoryError);
    var d := When(noDescription, DescriptionError);
    var t := When(noTitle, TitleError);
    assert IsSubsequence(t + (d + (c + (s + e))), ErrorOrder)
      && (TitleError in t + (d + (c + (s + e))) <==> noTitle)
      && (DescriptionError in t + (d + (c + (s + e))) <==> noDescription)
      && (CategoryError in t + (d + (c + (s + e))) <==> noCategory)
      && (SectionError in t + (d + (c + (s + e))) <==> noSection)
      && (DvgError in t + (d + (c + (s + e))) <==> noDvg) by {
      ErrorsDistinct();
      WhenPrepend(noDvg, DvgError, [], []);
      assert e + [] == e;
      assert [DvgError] + [] == [DvgError];
      WhenPrepend(noSection, SectionError, e, [DvgError]);
      WhenPrepend(noCategory, CategoryError, s + e, [SectionError, DvgError]);
      WhenPrepend(noDescription, DescriptionError, c + (s + e), [CategoryError, SectionError, DvgError]);
      WhenPrepend(noTitle, TitleError, d + (c + (s + e)),
        [DescriptionError, CategoryError, SectionError, DvgError]);
    }
    t + (d + (c + (s + e)))
  }

  /** `derivedErrors`: every failing check's message, in a fixed order. */
  function DerivedErrors(f: PublishForm): (r: seq<string>)
    ensures TitleError in r <==> Trim(f.title) == ""
    ensures DescriptionError in r <==> Trim(f.description) == ""
    ensures CategoryError in r <==> f.category.None?
    ensures SectionError in r <==> f.section.None?
    ensures DvgError in r <==> f.section == Some(Retos) && DvgMissing(f.dvg)
    ensures IsSubsequence(r, ErrorOrder)
  {
    ErrorList(
      Trim(f.title) == "", Trim(f.description) == "", f.category.None?, f.section.None?,
      f.section == Some(Retos) && DvgMissing(f.dvg))
  }

  /** Outside RETOS the days-of-life field plays no part in the errors. */
  lemma DerivedErrorsIgnoreDvgOutsideRetos(f: PublishForm, d: DvgField)
    requires f.section != Some(Retos)
    ensures DerivedErrors(f.(dvg := d)) == DerivedErrors(f)
  {
  }

  /** The two screens agree on the checks they share: with an admin chosen and
      a category set, a form passes the draft screen's validation exactly when
      the publishing screen shows no error. */
  lemma ScreensAgree(f: PublishForm)
    requires f.adminName != "" && f.category.Some?
    ensures var draft := ContentDraft.DraftForm(
        f.adminName, f.section, f.title, f.description, f.dvg, f.category.value, f.textContent);
      ContentDraft.Validate(draft).None? <==> DerivedErrors(f) == []
  {
    var r := DerivedErrors(f);
    if r != [] {
      assert r[0] in r;
    }
  }

  /** The attachment made for a picked file, kept with the file to upload. */
  function PendingItem(f: SelectedFile): (m: MediaItem)
    ensures m.kind == DetectKind(f.mimeType) && m.file == Some(f)
    ensures m.name == f.name && m.size == f.size && m.mimeType == f.mimeType
    ensures m.url == f.objectUrl && m.id == f.clientId
  {
    MediaItem(f.clientId, DetectKind(f.mimeType), f.name, f.size, f.mimeType, f.objectUrl, Some(f))
  }

  /** `onFilesSelected`: the picked files, in order, go before the existing
      media; there is no count or size limit. */
  function OnFilesSelected(media: seq<MediaItem>, files: Option<seq<SelectedFile>>): (r: seq<MediaItem>)
    ensures files.None? ==> r == media
    ensures files.Some? ==> |r| == |files.value| + |media|
    ensures files.Some? ==> forall j :: 0 <= j < |files.value| ==> r[j] == PendingItem(files.value[j])
    ensures r[|r| - |media|..] == media
  {
    if files.None? || |files.value| == 0 then media
    else seq(|files.value|, j requires 0 <= j < |files.value| => PendingItem(files.value[j])) + media
  }

  /** `uploadOneToSupabase`: an item without a pending file keeps its URL;
      otherwise the upload endpoint's answer `upload(m)` decides. */
  function UploadOne(m: MediaItem, upload: MediaItem -> StoreResult<string>): (r: StoreResult<string>)
    ensures m.file.None? ==> r == StoreOk(m.url)
    ensures m.file.Some? ==> r == upload(m)
  {
    if m.file.None? then StoreOk(m.url) else upload(m)
  }

  /** The item as sent after its upload: the public URL, no pending file. */
  function Uploaded(m: MediaItem, url: string): MediaItem {
    m.(url := url, file := None)
  }

  /** The `Promise.all` over the media: every upload must succeed, each item
      takes its public URL; the first failure in list order is reported. */
  function UploadAll(media: seq<MediaItem>, upload: MediaItem -> StoreResult<string>)
    : (r: StoreResult<seq<MediaItem>>)
    ensures r.StoreOk? <==> forall i :: 0 <= i < |media| ==> UploadOne(media[i], upload).StoreOk?
    ensures r.StoreOk? ==> |r.data| == |media|
    ensures r.StoreOk? ==> forall i :: 0 <= i < |media| ==>
      r.data[i] == Uploaded(media[i], UploadOne(media[i], upload).data)
    ensures r.StoreErr? ==> exists i :: 0 <= i < |media| && UploadOne(media[i], upload) == StoreErr(r.message)
    decreases |media|
  {
    if |media| == 0 then StoreOk([])
    else
      var first := UploadOne(media[0], upload);
      if first.StoreErr? then StoreErr(first.message)
      else
        var rest := UploadAll(media[1..], upload);
        if rest.StoreErr? then
          assert forall i :: 0 <= i < |media[1..]| ==> media[1..][i] == media[i + 1];
          StoreErr(rest.message)
        else
          assert forall i :: 1 <= i < |media| ==> media[i] == media[1..][i - 1];
          StoreOk([Uploaded(media[0], first.data)] + rest.data)
  }

  /** Items that were never picked from disk keep their URL through the
      upload step, and nothing is left pending. */
  lemma UploadKeepsUrlWithoutFile(media: seq<MediaItem>, upload: MediaItem -> StoreResult<string>)
    requires forall i :: 0 <= i < |media| ==> media[i].file.None?
    ensures UploadAll(media, upload).StoreOk?
    ensures forall i :: 0 <= i < |media| ==>
      UploadAll(media, upload).data[i] == media[i].(file := None)
  {
  }

  datatype ContentBody = ContentBody(
    section: Section,
    title: string,
    description: string,
    dvg: Option<Num>,
    category: Category,
    textContent: Option<string>,
    visibility: string,
    createdBy: string,
    media: seq<MediaItem>)

  /** The request body for the content endpoint. */
  function BuildBody(f: PublishForm, status: SaveStatus, uploaded: seq<MediaItem>): (b: ContentBody)
    requires f.section.Some? && f.category.Some?
    ensures b.dvg.Some? <==> f.section == Some(Retos)
    ensures b.dvg.Some? ==> b.dvg.value == DvgValue(f.dvg)
    ensures b.visibility == "public" <==> status == Published
    ensures b.visibility == "draft" <==> status == Draft
    ensures b.title == Trim(f.title) && b.description == Trim(f.description)
    ensures b.textContent == OptionalText(f.textContent)
    ensures b.createdBy == f.adminName && b.media == uploaded
  {
    ContentBody(
      f.section.value, Trim(f.title), Trim(f.description),
      if f.section == Some(Retos) then Some(DvgValue(f.dvg)) else None,
      f.category.value, OptionalText(f.textContent),
      if status == Published then "public" else "draft",
      f.adminName, uploaded)
  }

  /** The message shown when a save fails without one of its own. */
  const SaveFailed := "No se pudo guardar/publicar."

  /** `handleSaveToDB`: any error blocks the save with the first one shown;
      then every pending file is uploaded and the record is created. */
  function HandleSaveToDb(
    f: PublishForm, media: seq<MediaItem>, status: SaveStatus,
    upload: MediaItem -> StoreResult<string>, created: StoreResult<()>)
    : (r: SaveOutcome<ContentBody>)
    ensures r.Blocked? <==> DerivedErrors(f) != []
    ensures r.Blocked? ==> r.message == DerivedErrors(f)[0]
    ensures r.Failed? <==> DerivedErrors(f) == [] && (UploadAll(media, upload).StoreErr? || created.StoreErr?)
    ensures r.Saved? ==>
      && f.section.Some? && f.category.Some?
      && r.record == BuildBody(f, status, UploadAll(media, upload).data)
      && r.message == SavedMessage(status)
      && forall i :: 0 <= i < |r.record.media| ==> r.record.media[i].file.None?
  {
    var errors := DerivedErrors(f);
    if errors != [] then Blocked(errors[0])
    else
      var uploaded := UploadAll(media, upload);
      if uploaded.StoreErr? then Failed(MessageOr(uploaded.message, SaveFailed))
      else if created.StoreErr? then Failed(MessageOr(created.message, SaveFailed))
      else Saved(BuildBody(f, status, uploaded.data), SavedMessage(status))
  }

  /** A blocked save shows the first check that failed, in the order
      name, description, category, section, days of life. */
  lemma BlockedShowsFirstError(
    f: PublishForm, media: seq<MediaItem>, status: SaveStatus,
    upload: MediaItem -> StoreResult<string>, created: StoreResult<()>)
    ensures Trim(f.title) == "" ==>
      HandleSaveToDb(f, media, status, upload, created) == Blocked(TitleError)
    ensures Trim(f.title) != "" && Trim(f.description) == "" ==>
      HandleSaveToDb(f, media, status, upload, created) == Blocked(DescriptionError)
    ensures f.section == Some(Retos) && DvgMissing(f.dvg) ==>
      HandleSaveToDb(f, media, status, upload, created).Blocked?
  {
    var r := DerivedErrors(f);
    if Trim(f.title) == "" {
      assert r[0] == TitleError;
    } else if Trim(f.description) == "" {
      assert r[0] == DescriptionError;
    }
  }
}
