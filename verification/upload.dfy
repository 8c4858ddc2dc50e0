/**
  `POST /api/upload`: the stored file's name and path. The upload itself is a
  store call whose outcome is a parameter.
 */
module Upload {
  import opened Wrappers
  import opened Text

  /** The characters `[a-zA-Z0-9_.-]` kept by the sanitiser. */
  predicate Allowed(c: char) {
    ('a' <= c <= 'z') || ('A' <= c <= 'Z') || ('0' <= c <= '9') || c == '_' || c == '.' || c == '-'
  }

  predicate AllAllowed(s: string) {
    forall i :: 0 <= i < |s| ==> Allowed(s[i])
  }

  /** `name.replace(/[^a-zA-Z0-9_.-]/g, '_')`: one-for-one replacement. */
  function Sanitise(name: string): (r: string)
    ensures |r| == |name|
    ensures AllAllowed(r)
    ensures forall i :: 0 <= i < |name| ==> (r[i] == name[i] <==> Allowed(name[i]))
  {
    seq(|name|, i requires 0 <= i < |name| => if Allowed(name[i]) then name[i] else '_')
  }

  /** Sanitising twice is sanitising once, and a clean name is left alone. */
  lemma SanitiseIdempotent(name: string)
    ensures Sanitise(Sanitise(name)) == Sanitise(name)
    ensures AllAllowed(name) ==> Sanitise(name) == name
  {
  }

  /** The name used when no `x-filename` header is sent. */
  function DefaultName(now: nat): string {
    "upload-" + NatToString(now)
  }

  /** The default name needs no sanitising. */
  lemma DefaultNameIsClean(now: nat)
    ensures AllAllowed(DefaultName(now))
    ensures Sanitise(DefaultName(now)) == DefaultName(now)
  {
    var d := NatToString(now);
    assert forall i :: 0 <= i < |d| ==> IsDigit(d[i]);
  }

  /** The stored file name: the header (when non-empty) or the default, sanitised. */
  function FileName(header: Option<string>, now: nat): (r: string)
    ensures AllAllowed(r)
    ensures header.Some? && header.value != "" ==> r == Sanitise(header.value)
    ensures header.None? || header.value == "" ==> r == DefaultName(now)
  {
    DefaultNameIsClean(now);
    if header.Some? && header.value != "" then Sanitise(header.value) else Sanitise(DefaultName(now))
  }

  /** `isoNow.slice(0, 10)`: the `YYYY-MM-DD` part of an ISO timestamp. */
  function DatePart(isoNow: string): (r: string)
    ensures |r| == if |isoNow| < 10 then |isoNow| else 10
    ensures r == isoNow[..|r|]
  {
    if |isoNow| < 10 then isoNow else isoNow[..10]
  }

  datatype UploadRequest = UploadRequest(verb: string, fileNameHeader: Option<string>)

  /** The answer body `{ url, path }`. */
  datatype Uploaded = Uploaded(url: string, path: string)

  /** The storage path `<date>/<name>` of an upload. */
  function StoragePath(req: UploadRequest, now: nat, isoNow: string): (r: string)
    ensures var date := DatePart(isoNow);
      && |r| == |date| + 1 + |FileName(req.fileNameHeader, now)|
      && r[..|date|] == date
      && r[|date|] == '/'
      && r[|date| + 1..] == FileName(req.fileNameHeader, now)
      && AllAllowed(r[|date| + 1..])
  {
    DatePart(isoNow) + "/" + FileName(req.fileNameHeader, now)
  }

  /** The handler: 405 for any method but POST, 500 when the store refuses
      the upload, otherwise the storage path together with the public URL
      the store gives for that path (`publicUrl`, a pure lookup in the store). */
  function HandleUpload(req: UploadRequest, now: nat, isoNow: string, stored: StoreResult<()>,
                        publicUrl: string -> string): (r: Reply<Uploaded>)
    ensures req.verb != "POST" ==> r == Refused(405, "Method not allowed")
    ensures req.verb == "POST" && stored.StoreErr? ==> r == Refused(500, stored.message)
    ensures r.Answered? <==> req.verb == "POST" && stored.StoreOk?
    ensures r.Answered? ==>
      var date := DatePart(isoNow);
      && r.body.url == publicUrl(r.body.path)
      && |r.body.path| == |date| + 1 + |FileName(req.fileNameHeader, now)|
      && r.body.path[..|date|] == date
      && r.body.path[|date|] == '/'
      && r.body.path[|date| + 1..] == FileName(req.fileNameHeader, now)
  {
    if req.verb != "POST" then Refused(405, "Method not allowed")
    else if stored.StoreErr? then Refused(500, stored.message)
    else
      var path := StoragePath(req, now, isoNow);
      Answered(Uploaded(publicUrl(path), path))
  }
}
