/**
 * The interview API helpers (src/api/interviewApi.ts): the overloaded `list`, which builds
 * its query parameters step by step, and `updateStatus`.
 */
module InterviewApi {
  import opened Wrappers
  import opened Http
  import opened Records
  import Text

  /** The first argument of `list`: a user id, an options object, or null/undefined. */
  datatype ListArg = UserId(userId: string) | Options(fields: map<string, string>) | NoArg

  const ListPath: string := "/is/list"
  const StatusPath: string := "/is/status/"

  /**
   * `list(user_idOrOptions, roleArg)`: a user id gives `user_id`, plus `role` when a role is
   * given; an options object is copied as it is and the role argument ignored; anything else
   * leaves the parameters empty.
   */
  method List(arg: ListArg, roleArg: Option<string>) returns (r: Request<map<string, string>>)
    ensures r.verb == Get && r.url == ListPath
    ensures arg.UserId? ==> "user_id" in r.payload && r.payload["user_id"] == arg.userId
    ensures arg.UserId? ==> r.payload.Keys == if Text.Truthy(roleArg) then {"user_id", "role"} else {"user_id"}
    ensures arg.UserId? && Text.Truthy(roleArg) ==> r.payload["role"] == roleArg.value
    ensures arg.Options? ==> r.payload == arg.fields
    ensures arg.NoArg? ==> r.payload == map[]
  {
    var params: map<string, string> := map[];
    if arg.UserId? {
      params := params["user_id" := arg.userId];
      if Text.Truthy(roleArg) {
        params := params["role" := roleArg.value];
      }
    } else if arg.Options? {
      params := arg.fields;
    }
    r := Request(Get, ListPath, params);
  }

  /** `updateStatus(id, data)`: a PUT of exactly `data` to the interview's status path. */
  function UpdateStatus(id: string, body: UpdateInterviewStatusRequest): (r: Request<UpdateInterviewStatusRequest>)
    ensures r.verb == Put && r.payload == body
    ensures |r.url| == |StatusPath| + |id| && r.url[..|StatusPath|] == StatusPath && r.url[|StatusPath|..] == id
  {
    Request(Put, StatusPath + id, body)
  }

  /** Different interviews are updated at different paths. */
  lemma UpdateStatusTargetsOneInterview(a: string, b: string, x: UpdateInterviewStatusRequest, y: UpdateInterviewStatusRequest)
    requires UpdateStatus(a, x).url == UpdateStatus(b, y).url
    ensures a == b
  {
    var u := UpdateStatus(a, x).url;
    assert a == u[|StatusPath|..] == b;
  }
}
