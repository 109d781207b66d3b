/**
 * The resume API helpers (src/api/resumeApi.ts): the two list getters' paths and the
 * envelope they unwrap, and `shortlist`.
 */
module ResumeApi {
  import opened Wrappers
  import opened Http
  import opened Records
  import Text

  const AllCandidatesPath: string := "/rs/getAllCandidates"
  const ShortlistedPath: string := "/rs/getAllShortListedCandidates"

  /** `getAllCandidates(jdId)`: the description's path when an id is given, `/all` otherwise. */
  function GetAllCandidates(jdId: Option<string>): (r: Request<()>)
    ensures r.verb == Get
    ensures Text.Truthy(jdId) ==> r.url == AllCandidatesPath + "/" + jdId.value
    ensures !Text.Truthy(jdId) ==> r.url == AllCandidatesPath + "/all"
  {
    Request(Get, if Text.Truthy(jdId) then AllCandidatesPath + "/" + jdId.value else AllCandidatesPath + "/all", ())
  }

  /** `getShortlistedCandidates(jdId)`: the description's path when an id is given, no suffix otherwise. */
  function GetShortlistedCandidates(jdId: Option<string>): (r: Request<()>)
    ensures r.verb == Get
    ensures Text.Truthy(jdId) ==> r.url == ShortlistedPath + "/" + jdId.value
    ensures !Text.Truthy(jdId) ==> r.url == ShortlistedPath
  {
    Request(Get, if Text.Truthy(jdId) then ShortlistedPath + "/" + jdId.value else ShortlistedPath, ())
  }

  /** Passing "all" and passing nothing fetch the same applicants... */
  lemma AllMatchesAbsentForApplied()
    ensures GetAllCandidates(Some("all")) == GetAllCandidates(None)
  {
  }

  /** ...but different shortlisting paths. */
  lemma AllDiffersFromAbsentForShortlisted()
    ensures GetShortlistedCandidates(Some("all")) != GetShortlistedCandidates(None)
  {
    assert |GetShortlistedCandidates(Some("all")).url| != |GetShortlistedCandidates(None).url|;
  }

  /** A response body: the list itself, or an object that may carry it under `candidates`. */
  datatype Body<T> = ListBody(items: seq<T>) | ObjectBody(candidates: Option<seq<T>>)

  /**
   * `data.candidates || data`: an object's list when it has one (an array is truthy even when
   * empty), otherwise the body as it came.
   */
  function Unwrap<T>(b: Body<T>): (r: Body<T>)
    ensures b.ObjectBody? && b.candidates.Some? ==> r == ListBody(b.candidates.value)
    ensures b.ListBody? || b.candidates.None? ==> r == b
    ensures r.ListBody? <==> b.ListBody? || b.candidates.Some?
  {
    match b
    case ObjectBody(Some(items)) => ListBody(items)
    case _ => b
  }

  /** Unwrapping twice is unwrapping once. */
  lemma UnwrapIdempotent<T>(b: Body<T>)
    ensures Unwrap(Unwrap(b)) == Unwrap(b)
  {
  }

  /** `shortlist(data)`: posts the request unchanged. */
  function Shortlist(req: ShortlistRequest): (r: Request<ShortlistRequest>)
    ensures r.verb == Post && r.url == "/rs/shortlist" && r.payload == req
  {
    Request(Post, "/rs/shortlist", req)
  }
}
