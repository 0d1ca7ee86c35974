/** The HTTP responses the `/execute` endpoint can give. */
module Responses {
  import opened JsonValues

  /** The error text of every response that reports an exception from running the script. */
  const EXEC_FAILED: string := "Script execution failed"

  datatype Response =
    /** 400 with only an error text: the request was refused before anything ran. */
    | Rejected(error: string)
    /** 400 with an error text and the guest's standard output. */
    | Failed(error: string, stdout: string)
    /** 400 "Script execution failed" with the text of the exception that was raised. */
    | Crashed(stderr: string)
    /** 200 with the object `main()` returned and the guest's standard output. */
    | Succeeded(result: map<string, Json>, stdout: string)
    /** 500 from the web framework: an exception escaped the handler. */
    | InternalError
  {
    function Status(): nat {
      match this
      case Succeeded(_, _) => 200
      case InternalError => 500
      case _ => 400
    }

    /** The JSON body the handler passes to `jsonify`. */
    function Body(): Json
      requires !InternalError?
    {
      match this
      case Rejected(e) => JObject(map["error" := JString(e)])
      case Failed(e, out) => JObject(map["error" := JString(e), "stdout" := JString(out)])
      case Crashed(err) => JObject(map["error" := JString(EXEC_FAILED), "stderr" := JString(err)])
      case Succeeded(res, out) => JObject(map["result" := JObject(res), "stdout" := JString(out)])
    }
  }

  /** A handler body is a JSON object, and it has an "error" key exactly when its status is 400. */
  lemma ErrorKeyIffBadRequest(r: Response)
    requires !r.InternalError?
    ensures r.Body().JObject?
    ensures "error" in r.Body().fields <==> r.Status() == 400
  {
  }
}
