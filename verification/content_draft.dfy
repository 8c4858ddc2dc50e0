/**
  The draft content manager (`src/pages/admin/AdminContentManager.tsx`):
  file selection under a count and a byte limit, the first-failing-check
  validation, and the payload handed to `onSave` (or to local storage).
 */
module ContentDraft {
  import opened Wrappers
  import opened Text
  import opened ContentForm

  const MaxFiles: nat := 12
  const MaxTotalBytes: nat := 200 * 1024 * 1024

  /** The attachment made for a picked file. */
  function DraftItem(f: SelectedFile): (m: MediaItem)
    ensures m.kind == DetectKind(f.mimeType)
    ensures m.name == f.name && m.size == f.size && m.mimeType == f.mimeType
    ensures m.url == f.objectUrl && m.id == f.clientId && m.file.None?
  {
    MediaItem(f.clientId, DetectKind(f.mimeType), f.name, f.size, f.mimeType, f.objectUrl, None)
  }

  function Items(fs: seq<SelectedFile>): (r: seq<MediaItem>)
    ensures |r| == |fs|
    ensures forall j :: 0 <= j < |fs| ==> r[j] == DraftItem(fs[j])
  {
    seq(|fs|, j requires 0 <= j < |fs| => DraftItem(fs[j]))
  }

  lemma ItemsStep(fs: seq<SelectedFile>, i: nat)
    requires i < |fs|
    ensures Items(fs[..i + 1]) == Items(fs[..i]) + [DraftItem(fs[i])]
  {
  }

  /** The first `i + 1` files weigh no more than the whole selection. */
  lemma PrefixBytes(fs: seq<SelectedFile>, i: nat)
    requires i < |fs|
    ensures TotalBytes(Items(fs[..i])) + fs[i].size <= TotalBytes(Items(fs))
  {
    assert Items(fs) == Items(fs[..i]) + [DraftItem(fs[i])] + Items(fs[i + 1..]);
    TotalBytesAppend(Items(fs[..i]) + [DraftItem(fs[i])], Items(fs[i + 1..]));
    TotalBytesAppend(Items(fs[..i]), [DraftItem(fs[i])]);
  }

  /** `onFilesSelected`: files are taken in order after the existing media
      until the next one would pass 12 attachments or 200 MB. `taken` is the
      number of files accepted. */
  method OnFilesSelected(media: seq<MediaItem>, files: Option<seq<SelectedFile>>)
    returns (r: seq<MediaItem>, taken: nat)
    ensures files.None? ==> r == media && taken == 0
    ensures files.Some? ==> taken <= |files.value| && r == media + Items(files.value[..taken])
    // the limits are never crossed by the files added
    ensures |r| <= Max(|media|, MaxFiles)
    ensures TotalBytes(r) <= Max(TotalBytes(media), MaxTotalBytes)
    // the accepted prefix stops only where the next file would break a limit
    ensures files.Some? && taken < |files.value| ==>
      |r| >= MaxFiles || TotalBytes(r) + files.value[taken].size > MaxTotalBytes
    // a selection that fits is taken whole
    ensures (files.Some? && |media| + |files.value| <= MaxFiles
      && TotalBytes(media) + TotalBytes(Items(files.value)) <= MaxTotalBytes) ==>
      taken == |files.value|
  {
    if files.None? {
      return media, 0;
    }
    var fs := files.value;
    var next: seq<MediaItem> := [];
    var bytes := TotalBytes(media);
    var i := 0;
    TotalBytesAppend(media, next);
    assert media + next == media;
    while i < |fs|
      invariant 0 <= i <= |fs|
      invariant next == Items(fs[..i])
      invariant bytes == TotalBytes(media + next)
      invariant |media| + i <= Max(|media|, MaxFiles)
      invariant bytes <= Max(TotalBytes(media), MaxTotalBytes)
    {
      if |media| + |next| >= MaxFiles {
        break;
      }
      if bytes + fs[i].size > MaxTotalBytes {
        break;
      }
      ItemsStep(fs, i);
      TotalBytesAppend(media + next, [DraftItem(fs[i])]);
      assert media + next + [DraftItem(fs[i])] == media + (next + [DraftItem(fs[i])]);
      next := next + [DraftItem(fs[i])];
      bytes := bytes + fs[i].size;
      i := i + 1;
    }
    if i < |fs| && |media| + |fs| <= MaxFiles {
      TotalBytesAppend(media, next);
      PrefixBytes(fs, i);
    }
    r, taken := media + next, i;
  }

  /** The draft screen's form. An empty section or admin name is what the
      `!section` and `!adminName` tests look for. */
  datatype DraftForm = DraftForm(
    adminName: string,
    section: Option<Section>,
    title: string,
    description: string,
    dvg: DvgField,
    category: Category,
    textContent: string)

  predicate AdminOk(f: DraftForm) { f.adminName != "" }
  predicate SectionOk(f: DraftForm) { f.section.Some? }
  predicate TitleOk(f: DraftForm) { Trim(f.title) != "" }
  predicate DescriptionOk(f: DraftForm) { Trim(f.description) != "" }
  predicate DvgOk(f: DraftForm) { !(f.section == Some(Retos) && DvgMissing(f.dvg)) }

  /** `validate`: the message of the first failing check, in the order admin,
      section, title, description, days of life (RETOS only). */
  function Validate(f: DraftForm): (r: Option<string>)
    ensures r.None? <==> AdminOk(f) && SectionOk(f) && TitleOk(f) && DescriptionOk(f) && DvgOk(f)
    ensures r == Some("Selecciona un administrador") <==> !AdminOk(f)
    ensures r == Some("Selecciona el destino") <==> AdminOk(f) && !SectionOk(f)
    ensures r == Some("Indica un nombre") <==> AdminOk(f) && SectionOk(f) && !TitleOk(f)
    ensures r == Some("Añade una descripción") <==>
      AdminOk(f) && SectionOk(f) && TitleOk(f) && !DescriptionOk(f)
    ensures r == Some("Introduce los Días de Vida Ganados (número)") <==>
      AdminOk(f) && SectionOk(f) && TitleOk(f) && DescriptionOk(f) && !DvgOk(f)
  {
    if f.adminName == "" then Some("Selecciona un administrador")
    else if f.section.None? then Some("Selecciona el destino")
    else if Trim(f.title) == "" then Some("Indica un nombre")
    else if Trim(f.description) == "" then Some("Añade una descripción")
    else if f.section == Some(Retos) && DvgMissing(f.dvg) then Some("Introduce los Días de Vida Ganados (número)")
    else None
  }

  /** Outside RETOS the days-of-life field plays no part in validation. */
  lemma ValidateIgnoresDvgOutsideRetos(f: DraftForm, d: DvgField)
    requires f.section != Some(Retos)
    ensures Validate(f.(dvg := d)) == Validate(f)
  {
  }

  datatype DraftPayload = DraftPayload(
    id: string,
    adminName: string,
    section: Section,
    title: string,
    description: string,
    diasVidaGanados: Option<Num>,
    category: Category,
    textContent: Option<string>,
    media: seq<MediaItem>,
    status: SaveStatus,
    createdAt: string)

  /** The payload of a validated form; `id` and `createdAt` stand for `uid()`
      and the current ISO time. */
  function BuildPayload(f: DraftForm, media: seq<MediaItem>, status: SaveStatus, id: string, createdAt: string)
    : (p: DraftPayload)
    requires f.section.Some?
    ensures p.diasVidaGanados.Some? <==> f.section == Some(Retos)
    ensures p.diasVidaGanados.Some? ==> p.diasVidaGanados.value == DvgValue(f.dvg)
    ensures p.title == Trim(f.title) && p.description == Trim(f.description)
    ensures p.textContent == OptionalText(f.textContent)
    ensures p.section == f.section.value && p.adminName == f.adminName && p.category == f.category
    ensures p.media == media && p.status == status && p.id == id && p.createdAt == createdAt
  {
    DraftPayload(
      id, f.adminName, f.section.value, Trim(f.title), Trim(f.description),
      if f.section == Some(Retos) then Some(DvgValue(f.dvg)) else None,
      f.category, OptionalText(f.textContent), media, status, createdAt)
  }

  /** `handleSave`: a validation message blocks; otherwise the payload goes to
      `onSave` (or local storage), whose failure `stored` reports. */
  function HandleSave(
    f: DraftForm, media: seq<MediaItem>, status: SaveStatus, id: string, createdAt: string,
    stored: StoreResult<()>)
    : (r: SaveOutcome<DraftPayload>)
    ensures r.Blocked? <==> Validate(f).Some?
    ensures r.Blocked? ==> r.message == Validate(f).value
    ensures r.Failed? <==> Validate(f).None? && stored.StoreErr?
    ensures r.Failed? ==> r.message == "No se pudo guardar. Reintenta."
    ensures r.Saved? ==>
      && f.section.Some?
      && r.record == BuildPayload(f, media, status, id, createdAt)
      && r.message == SavedMessage(status)
  {
    var err := Validate(f);
    if err.Some? then Blocked(err.value)
    else if stored.StoreErr? then Failed("No se pudo guardar. Reintenta.")
    else Saved(BuildPayload(f, media, status, id, createdAt), SavedMessage(status))
  }

  /** A saved RETOS draft always carries a number of days, never `NaN`, and
      its title and description are non-blank. */
  lemma SavedRetosHasDays(
    f: DraftForm, media: seq<MediaItem>, status: SaveStatus, id: string, createdAt: string)
    requires f.section == Some(Retos)
    requires HandleSave(f, media, status, id, createdAt, StoreOk(())).Saved?
    ensures var p := HandleSave(f, media, status, id, createdAt, StoreOk(())).record;
      p.diasVidaGanados.Some? && p.diasVidaGanados.value.Fin?
      && p.title != "" && p.description != ""
  {
  }
}
