/**
 * The admin client's two downloads: an uploaded document, saved under the
 * name shown in the table unless the server names it, and a customer's
 * policy report, saved as "Report" followed by the customer id unless the
 * server names it. Both then go through the same extension step.
 */
module AdminClient {
  import opened Common
  import DownloadName

  const BaseUrl: string := "http://localhost:8081/SecureLife.com"

  /** downloadDocument: the request path and the name the file is saved under (None: nothing is saved). */
  method DownloadDocument(documentId: string, documentNameFromUI: string, contentDisposition: Option<string>,
                          contentType: Option<string>)
    returns (url: string, fileName: Option<string>)
    ensures url == BaseUrl + "/document/" + documentId + "/download"
    ensures fileName == DownloadName.Derived(documentNameFromUI, contentDisposition, contentType)
  {
    url := BaseUrl + "/document/" + documentId + "/download";
    fileName := DownloadName.DeriveFileName(documentNameFromUI, contentDisposition, contentType);
  }

  /** downloadPolicyReport: the same derivation, starting from "Report" and the customer id. */
  method DownloadPolicyReport(customerId: string, contentDisposition: Option<string>, contentType: Option<string>)
    returns (url: string, fileName: Option<string>)
    ensures url == BaseUrl + "/customers/" + customerId + "/policy-report/download"
    ensures fileName == DownloadName.Derived("Report" + customerId, contentDisposition, contentType)
  {
    url := BaseUrl + "/customers/" + customerId + "/policy-report/download";
    fileName := DownloadName.DeriveFileName("Report" + customerId, contentDisposition, contentType);
  }

  /** The header the backend sends with a generated PDF: the file's name in quotes. */
  function AttachmentHeader(name: string): (h: string)
    ensures h == "attachment; " + DownloadName.Key + "\"" + name + "\""
  {
    "attachment; filename=\"" + name + "\""
  }

  /**
   * A report the backend names is saved under that name with its closing
   * quote kept, whatever the content type: the name already holds a '.',
   * so no extension is added.
   */
  lemma ServerNamedReportKeepsQuote(customerId: string, name: string, contentType: Option<string>)
    requires name != [] && DownloadName.NoLineTerminator(name) && '.' in name
    ensures DownloadName.Derived("Report" + customerId, Some(AttachmentHeader(name)), contentType)
            == Some(name + "\"")
  {
    var prefix := "attachment; ";
    assert 'f' !in prefix;
    DownloadName.QuotedNameKeepsClosingQuote(prefix, name);
    DownloadName.ContainsChar(name, '.');
    DownloadName.ContainsPrefixExtends(name, "\"", ".");
  }

  /**
   * Without the header, a report for a customer id with no '.' served as
   * application/pdf is saved as "Report<id>.pdf".
   */
  lemma UnnamedReportGetsPdfExtension(customerId: string)
    requires '.' !in customerId
    ensures DownloadName.Derived("Report" + customerId, None, Some("application/pdf"))
            == Some("Report" + customerId + ".pdf")
  {
    var name := "Report" + customerId;
    assert '.' !in name;
    DownloadName.ContainsChar(name, '.');
    var ct := "application/pdf";
    DownloadName.FirstCharAbsent(ct, "jpeg");
    DownloadName.FirstCharAbsent(ct, "jpg");
    assert OccursAt(ct, "pdf", 12);
  }
}
