/** The provider client: request outcomes as an oracle, the throw-or-return contract of a
    request, the connectivity probe, and the paginated invoice listing. */
module HarvestClient {
  import opened Base

  datatype RemoteClient = RemoteClient(id: nat, name: string, isActive: bool)

  datatype RemoteProject = RemoteProject(id: nat, clientId: nat, name: string, isActive: bool)

  /** An invoice as the provider sends it; absent optional dates are `None`. */
  datatype RemoteInvoice = RemoteInvoice(
    id: nat,
    clientId: nat,
    number: string,
    issueDate: Date,
    dueDate: Option<Date>,
    state: string,
    amount: real,
    paidAmount: real,
    paidDate: Option<Date>)

  datatype InvoicePage = InvoicePage(invoices: seq<RemoteInvoice>, totalPages: int)

  /** What one authenticated request returns: a decoded body, or a non-OK status with its text. */
  datatype HttpResponse<T> = OkResponse(payload: T) | ErrorResponse(status: nat, body: string)

  /** The provider's answers during one pass: the probe, the client list, the project list,
      and `invoicePages[i]`, the answer to the request for invoice page `i + 1`. */
  datatype Remote = Remote(
    me: HttpResponse<()>,
    clients: HttpResponse<seq<RemoteClient>>,
    projects: HttpResponse<seq<RemoteProject>>,
    invoicePages: seq<HttpResponse<InvoicePage>>)

  /** Every listing asks for this many rows per page. Clients and projects are fetched as a
      single page, so at most this many of each are seen. */
  const PER_PAGE := 100

  const API_ERROR_PREFIX := "Harvest API error ("

  function Digit(d: nat): char
    requires d < 10
  {
    "0123456789"[d]
  }

  function NatToString(n: nat): (s: string)
    ensures |s| >= 1
    ensures forall i :: 0 <= i < |s| ==> '0' <= s[i] <= '9'
  {
    if n < 10 then [Digit(n)] else NatToString(n / 10) + [Digit(n % 10)]
  }

  /** The number a string of decimal digits denotes, most significant digit first. */
  function DigitsValue(s: string): nat
    requires forall i :: 0 <= i < |s| ==> '0' <= s[i] <= '9'
  {
    if |s| == 0 then 0 else DigitsValue(s[..|s| - 1]) * 10 + (s[|s| - 1] as int - '0' as int)
  }

  lemma DigitDenotes(d: nat)
    requires d < 10
    ensures Digit(d) as int - '0' as int == d
  {
  }

  /** The status is rendered in decimal: reading the digits back gives the number. */
  lemma {:induction false} NatToStringValue(n: nat)
    ensures DigitsValue(NatToString(n)) == n
  {
    if n < 10 {
      DigitDenotes(n);
    } else {
      var s := NatToString(n);
      NatToStringValue(n / 10);
      DigitDenotes(n % 10);
      assert s[..|s| - 1] == NatToString(n / 10);
    }
  }

  /** The message of the error a non-OK response raises: it starts with the fixed prefix,
      then the status in decimal, and ends with the response text. */
  function ApiErrorMessage(status: nat, body: string): (m: string)
    ensures |m| == |API_ERROR_PREFIX| + |NatToString(status)| + 3 + |body|
    ensures m[..|API_ERROR_PREFIX|] == API_ERROR_PREFIX
    ensures m[|m| - |body|..] == body
    ensures m[|API_ERROR_PREFIX|..|API_ERROR_PREFIX| + |NatToString(status)|] == NatToString(status)
    ensures m[|API_ERROR_PREFIX| + |NatToString(status)|..|m| - |body|] == "): "
  {
    API_ERROR_PREFIX + NatToString(status) + "): " + body
  }

  /** A request either yields the decoded body or raises the API error. */
  function Fetch<T>(response: HttpResponse<T>): (r: Result<T>)
    ensures r.Ok? <==> response.OkResponse?
    ensures response.OkResponse? ==> r.value == response.payload
    ensures response.ErrorResponse? ==> r.error == ApiErrorMessage(response.status, response.body)
  {
    match response
    case OkResponse(payload) => Ok(payload)
    case ErrorResponse(status, body) => Err(ApiErrorMessage(status, body))
  }

  datatype ConnectionTest = TestPassed | TestFailed(error: string)

  // ---------------------------------------------------------------------------
  // Pagination, as specification

  /** The provider's answers reach as far as any OK answer says there are pages, and there is
      at least an answer for page 1; without this the loop could ask forever. */
  predicate PagesCover(pages: seq<HttpResponse<InvoicePage>>)
  {
    && |pages| >= 1
    && forall i :: 0 <= i < |pages| && pages[i].OkResponse? ==> pages[i].payload.totalPages <= |pages|
  }

  function Prepend(xs: seq<RemoteInvoice>, r: Result<seq<RemoteInvoice>>): Result<seq<RemoteInvoice>>
  {
    match r
    case Ok(ys) => Ok(xs + ys)
    case Err(e) => Err(e)
  }

  lemma PrependNil(r: Result<seq<RemoteInvoice>>)
    ensures Prepend([], r) == r
  {
    if r.Ok? {
      assert [] + r.value == r.value;
    }
  }

  lemma PrependPrepend(xs: seq<RemoteInvoice>, ys: seq<RemoteInvoice>, r: Result<seq<RemoteInvoice>>)
    ensures Prepend(xs, Prepend(ys, r)) == Prepend(xs + ys, r)
  {
    if r.Ok? {
      assert xs + (ys + r.value) == (xs + ys) + r.value;
    }
  }

  /** Invoices of page `page` and of the pages the loop goes on to request after it. */
  function InvoicesFrom(pages: seq<HttpResponse<InvoicePage>>, page: nat): Result<seq<RemoteInvoice>>
    requires PagesCover(pages) && 1 <= page <= |pages|
    decreases |pages| - page
  {
    match Fetch(pages[page - 1])
    case Err(e) => Err(e)
    case Ok(p) =>
      if page + 1 <= p.totalPages then Prepend(p.invoices, InvoicesFrom(pages, page + 1)) else Ok(p.invoices)
  }

  /** Number of page requests made from page `page` on: at least one, never past the last answer. */
  function RequestsFrom(pages: seq<HttpResponse<InvoicePage>>, page: nat): (n: nat)
    requires PagesCover(pages) && 1 <= page <= |pages|
    ensures 1 <= n <= |pages| - page + 1
    decreases |pages| - page
  {
    match Fetch(pages[page - 1])
    case Err(_) => 1
    case Ok(p) => if page + 1 <= p.totalPages then 1 + RequestsFrom(pages, page + 1) else 1
  }

  function AllInvoices(pages: seq<HttpResponse<InvoicePage>>): Result<seq<RemoteInvoice>>
    requires PagesCover(pages)
  {
    InvoicesFrom(pages, 1)
  }

  function PagesRequested(pages: seq<HttpResponse<InvoicePage>>): nat
    requires PagesCover(pages)
  {
    RequestsFrom(pages, 1)
  }

  /** Concatenation, in order, of the invoice lists of OK answers. */
  function ConcatPages(ps: seq<HttpResponse<InvoicePage>>): seq<RemoteInvoice>
    requires forall i :: 0 <= i < |ps| ==> ps[i].OkResponse?
  {
    if |ps| == 0 then [] else ps[0].payload.invoices + ConcatPages(ps[1..])
  }

  /** All answers OK and all reporting the same `total_pages` T: from page `page` on, the loop
      requests exactly pages page..T and returns their invoices in page order. */
  lemma {:induction false} UniformPagesFrom(pages: seq<HttpResponse<InvoicePage>>, t: nat, page: nat)
    requires PagesCover(pages) && 1 <= page <= t <= |pages|
    requires forall i :: 0 <= i < t ==> pages[i].OkResponse? && pages[i].payload.totalPages == t
    ensures InvoicesFrom(pages, page) == Ok(ConcatPages(pages[page - 1..t]))
    ensures RequestsFrom(pages, page) == t - page + 1
    decreases t - page
  {
    var ps := pages[page - 1..t];
    assert ps[0] == pages[page - 1];
    assert pages[page - 1].OkResponse? && pages[page - 1].payload.totalPages == t;
    assert Fetch(pages[page - 1]) == Ok(ps[0].payload);
    if page + 1 <= t {
      UniformPagesFrom(pages, t, page + 1);
      assert ps[1..] == pages[page..t];
    } else {
      assert ps[1..] == [];
      assert ConcatPages(ps) == ps[0].payload.invoices + [];
      assert ps[0].payload.invoices + [] == ps[0].payload.invoices;
      assert InvoicesFrom(pages, page) == Ok(ps[0].payload.invoices);
    }
  }

  /** With a constant `total_pages` T >= 1 the listing makes exactly T requests and returns the
      invoices of pages 1..T concatenated in page order. */
  lemma UniformPages(pages: seq<HttpResponse<InvoicePage>>, t: nat)
    requires PagesCover(pages) && 1 <= t <= |pages|
    requires forall i :: 0 <= i < t ==> pages[i].OkResponse? && pages[i].payload.totalPages == t
    ensures AllInvoices(pages) == Ok(ConcatPages(pages[..t]))
    ensures PagesRequested(pages) == t
  {
    UniformPagesFrom(pages, t, 1);
    assert pages[0..t] == pages[..t];
  }

  /** Page 1 is requested even when the provider reports zero pages, and then it is the only one. */
  lemma ZeroPagesStillAsksOnce(pages: seq<HttpResponse<InvoicePage>>)
    requires PagesCover(pages) && pages[0].OkResponse? && pages[0].payload.totalPages <= 1
    ensures PagesRequested(pages) == 1
    ensures AllInvoices(pages) == Ok(pages[0].payload.invoices)
  {
  }

  /** 150 invoices at 100 per page: two requests, 150 invoices. */
  lemma TwoPagesExample(a: seq<RemoteInvoice>, b: seq<RemoteInvoice>)
    requires |a| == PER_PAGE && |b| == 50
    ensures var pages := [OkResponse(InvoicePage(a, 2)), OkResponse(InvoicePage(b, 2))];
      && PagesCover(pages)
      && PagesRequested(pages) == 2
      && AllInvoices(pages).Ok?
      && |AllInvoices(pages).value| == 150
  {
    var pages := [OkResponse(InvoicePage(a, 2)), OkResponse(InvoicePage(b, 2))];
    UniformPages(pages, 2);
    assert pages[..2][1..] == [pages[1]];
    assert [pages[1]][1..] == [];
    assert ConcatPages([pages[1]]) == b + [];
    assert ConcatPages(pages[..2]) == a + (b + []);
  }

  // ---------------------------------------------------------------------------
  // The client

  class HarvestApiClient {
    const accountId: string
    const accessToken: string

    /** `decrypt` is the credential store's decryption, foreign to this model. */
    constructor(accountId: string, encryptedToken: string, decrypt: string -> string)
      ensures this.accountId == accountId && this.accessToken == decrypt(encryptedToken)
    {
      this.accountId := accountId;
      this.accessToken := decrypt(encryptedToken);
    }

    /** The probe never raises: an OK answer passes, an error answer fails with its message. */
    function TestConnection(me: HttpResponse<()>): (r: ConnectionTest)
      ensures r.TestPassed? <==> me.OkResponse?
      ensures me.ErrorResponse? ==> r == TestFailed(ApiErrorMessage(me.status, me.body))
    {
      match Fetch(me)
      case Ok(_) => TestPassed
      case Err(e) => TestFailed(e)
    }

    /** One request for the first page of clients; nothing further is requested. */
    function GetClients(response: HttpResponse<seq<RemoteClient>>): (r: Result<seq<RemoteClient>>)
      ensures r.Ok? <==> response.OkResponse?
      ensures r.Ok? ==> r.value == response.payload
      ensures r.Err? ==> r.error == ApiErrorMessage(response.status, response.body)
    {
      Fetch(response)
    }

    /** One request for the first page of projects; nothing further is requested. */
    function GetProjects(response: HttpResponse<seq<RemoteProject>>): (r: Result<seq<RemoteProject>>)
      ensures r.Ok? <==> response.OkResponse?
      ensures r.Ok? ==> r.value == response.payload
      ensures r.Err? ==> r.error == ApiErrorMessage(response.status, response.body)
    {
      Fetch(response)
    }

    /** One request for the given page of invoices, numbered from 1. */
    function GetInvoices(pages: seq<HttpResponse<InvoicePage>>, page: nat): (r: Result<InvoicePage>)
      requires 1 <= page <= |pages|
      ensures r.Ok? <==> pages[page - 1].OkResponse?
      ensures r.Ok? ==> r.value == pages[page - 1].payload
      ensures r.Err? ==> r.error == ApiErrorMessage(pages[page - 1].status, pages[page - 1].body)
    {
      Fetch(pages[page - 1])
    }

    /** Requests pages 1, 2, ... while the next page number is within the `total_pages` of the
        latest answer, concatenating their invoices; the first error answer is raised.
        `requests` counts the page requests made. */
    method GetAllInvoices(pages: seq<HttpResponse<InvoicePage>>) returns (r: Result<seq<RemoteInvoice>>, requests: nat)
      requires PagesCover(pages)
      ensures r == AllInvoices(pages)
      ensures requests == PagesRequested(pages)
    {
      var allInvoices: seq<RemoteInvoice> := [];
      var page := 1;
      var totalPages := 1;
      requests := 0;
      PrependNil(InvoicesFrom(pages, page));
      while true
        invariant 1 <= page <= |pages|
        invariant AllInvoices(pages) == Prepend(allInvoices, InvoicesFrom(pages, page))
        invariant PagesRequested(pages) == requests + RequestsFrom(pages, page)
        decreases |pages| - page
      {
        var result := GetInvoices(pages, page);
        requests := requests + 1;
        if result.Err? {
          r := Err(result.error);
          return;
        }
        PrependPrepend(allInvoices, result.value.invoices, InvoicesFrom(pages, page));
        if page + 1 <= result.value.totalPages {
          PrependPrepend(allInvoices, result.value.invoices, InvoicesFrom(pages, page + 1));
        }
        allInvoices := allInvoices + result.value.invoices;
        totalPages := result.value.totalPages;
        page := page + 1;
        if page > totalPages {
          break;
        }
      }
      r := Ok(allInvoices);
    }
  }
}
