/** The route handler `PDFGenerator`: the method and payload gate in front
    of report generation, and the mapping of its outcome to a response. */
module Handler {
  import opened Wrappers
  import opened Paginator
  import opened Layout

  const ReportFileName: string := "Service-Order-Report.pdf"
  const MethodNotAllowedError: string := "Method Not Allowed"
  const NoDataError: string := "No data provided for generate PDF File.."
  const RetryMessage: string := "Error generating PDF File, Please try again."

  /** The parts of a request the handler reads: its method and the
      `companyData` field of its body (`None` when absent or `null`). */
  datatype Request<V> = Request(httpMethod: string, companyData: Option<seq<Company<V>>>)

  /** The three ways the handler answers. */
  datatype Response<V> =
    | JsonError(status: int, error: string)
    | PdfStream(contentType: string, contentDisposition: string, events: seq<Event<V>>)
    | TextError(status: int, message: string)
  {
    /** The HTTP status; a streamed PDF keeps the default 200. */
    function Status(): int {
      match this
      case JsonError(status, _) => status
      case PdfStream(_, _, _) => 200
      case TextError(status, _) => status
    }
  }

  /** `!companyData || companyData.length === 0`. */
  function NoData<V>(companyData: Option<seq<Company<V>>>): (none: bool)
    ensures !none <==> companyData.Some? && |companyData.value| > 0
  {
    companyData.None? || |companyData.value| == 0
  }

  /** `PDFGenerator(req, res)`, with the renderer's page-count reports as the
      oracle `reported`. */
  function Handle<V>(req: Request<V>, reported: nat -> nat): (resp: Response<V>)
    // the method is checked first: the body plays no part in a 405
    ensures req.httpMethod != "POST" ==> resp == JsonError(405, MethodNotAllowedError)
    ensures resp.Status() == 405 <==> req.httpMethod != "POST"
    ensures resp.Status() == 400 <==> req.httpMethod == "POST" && NoData(req.companyData)
    ensures resp.Status() == 400 ==> resp == JsonError(400, NoDataError)
    // a company without orders makes generation throw; the answer is the fixed retry text
    ensures resp.Status() == 500 <==>
      req.httpMethod == "POST" && !NoData(req.companyData) && !AllHaveOrders(req.companyData.value, 0)
    ensures resp.Status() == 500 ==> resp == TextError(500, RetryMessage)
    // otherwise the report is streamed, and it is the intended layout
    ensures resp.PdfStream? <==>
      req.httpMethod == "POST" && !NoData(req.companyData) && AllHaveOrders(req.companyData.value, 0)
    ensures resp.PdfStream? ==>
      req.companyData.Some? && AllHaveOrders(req.companyData.value, 0)
      && resp.events == DocumentLayout(req.companyData.value)
      && resp.contentType == "application/pdf"
      && resp.contentDisposition == "attachment; filename=" + ReportFileName
  {
    if req.httpMethod != "POST" then JsonError(405, MethodNotAllowedError)
    else if NoData(req.companyData) then JsonError(400, NoDataError)
    else
      var companies := req.companyData.value;
      match Generate(companies, reported)
      case Threw => TextError(500, RetryMessage)
      case Drawn(events) =>
        GenerateFollowsLayout(companies, reported);
        PdfStream("application/pdf", "attachment; filename=" + ReportFileName, events)
  }
}
