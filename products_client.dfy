/**
 * The products client of the Phorest API: the client's defaults, the query of one page of
 * the product listing (page size, page number, product type, the updated-at window), the
 * request URL, and how an answer becomes a page or an error. The HTTP exchange itself and
 * the JSON decoding are the server's answer, given as an HttpReply.
 */
module ProductsClient {
  import opened Wrappers
  import opened Clock
  import opened Text

  /** The gateway used when no base URL is configured. */
  const DefaultBaseUrl: string := "https://api-gateway-eu.phorest.com/third-party-api-server"

  /** The page size used when the caller asks for none (or for a non-positive one). */
  const DefaultPageSize: int := 100

  datatype Client = Client(baseUrl: string, businessId: string, username: string, password: string)

  /** NewProductsClient: an empty base URL means the EU gateway. */
  function NewProductsClient(baseURL: string, businessID: string, username: string, password: string): (c: Client)
    ensures c.baseUrl != ""
    ensures baseURL != "" ==> c.baseUrl == baseURL
    ensures baseURL == "" ==> c.baseUrl == DefaultBaseUrl
    ensures c.businessId == businessID && c.username == username && c.password == password
  {
    Client(if baseURL == "" then DefaultBaseUrl else baseURL, businessID, username, password)
  }

  /** One product as the listing reports it (prices and quantities as reals, times in milliseconds). */
  datatype PhorestProduct = PhorestProduct(
    productId: string,
    parentProductId: string,
    name: string,
    brandId: string,
    brandName: string,
    categoryId: string,
    categoryName: string,
    archived: bool,
    price: real,
    minQuantity: real,
    maxQuantity: real,
    productType: string,
    barcode: string,
    measurementQuantity: real,
    measurementUnit: string,
    reorderCount: real,
    reorderCost: real,
    quantityInStock: real,
    code: string,
    createdAt: Time,
    updatedAt: Time)

  /** A decoded page of the listing: its products and the page block the sync reads. */
  datatype ProductsPage = ProductsPage(products: seq<PhorestProduct>, size: int, totalElements: int, totalPages: int, number: int)

  /** What a request comes back with: a transport error, or a status, a body, and how the body decodes. */
  datatype HttpReply =
    | TransportError(msg: string)
    | HttpResponse(status: int, body: string, decoded: Result<ProductsPage>)

  datatype ListProductsOptions = ListProductsOptions(
    branchId: string,
    productType: string,
    updatedAfter: Option<Time>,
    updatedBefore: Option<Time>,
    page: int,
    size: int)

  /** The page size sent: the caller's when positive, otherwise the default. */
  function PageSizeOf(size: int): (n: int)
    ensures n > 0
    ensures size > 0 ==> n == size
    ensures size <= 0 ==> n == DefaultPageSize
  {
    if size <= 0 then DefaultPageSize else size
  }

  /** The query parameters ListProducts may set. */
  datatype QueryName = Page | ProductType | Size | UpdatedAfter | UpdatedBefore

  /** The name each parameter is sent under. */
  function NameText(n: QueryName): string {
    match n
    case Page => "page"
    case ProductType => "productType"
    case Size => "size"
    case UpdatedAfter => "updatedAfter"
    case UpdatedBefore => "updatedBefore"
  }

  /** The parameters in the byte order of their names, the order Encode writes them in. */
  const QueryOrder: seq<QueryName> := [Page, ProductType, Size, UpdatedAfter, UpdatedBefore]

  /**
   * A query value: a text sent as it is, or an instant, sent as its UTC reading to the
   * millisecond ("2006-01-02T15:04:05.000Z").
   */
  datatype QueryValue = Text(text: string) | Instant(at: Time)

  /** The text a value is sent as. */
  function ValueText(v: QueryValue): string {
    match v
    case Text(s) => s
    case Instant(t) => FormatMillis(t)
  }

  /**
   * The query of ListProducts, built as its successive Set calls build it: size and page
   * always; productType only when one is given; the two bounds of the updated-at window
   * only when both are given.
   */
  function ListQuery(opts: ListProductsOptions): (q: map<QueryName, QueryValue>)
    ensures Size in q && q[Size] == Text(Itoa(PageSizeOf(opts.size)))
    ensures Page in q && q[Page] == Text(Itoa(opts.page))
    ensures ProductType in q <==> opts.productType != ""
    ensures ProductType in q ==> q[ProductType] == Text(opts.productType)
    ensures (UpdatedAfter in q <==> UpdatedBefore in q)
    ensures (UpdatedAfter in q <==> opts.updatedAfter.Some? && opts.updatedBefore.Some?)
    ensures UpdatedAfter in q ==>
      q[UpdatedAfter] == Instant(opts.updatedAfter.value) && q[UpdatedBefore] == Instant(opts.updatedBefore.value)
  {
    var q := map[Size := Text(Itoa(PageSizeOf(opts.size))), Page := Text(Itoa(opts.page))];
    var q := if opts.productType != "" then q[ProductType := Text(opts.productType)] else q;
    if opts.updatedAfter.Some? && opts.updatedBefore.Some? then
      q[UpdatedAfter := Instant(opts.updatedAfter.value)][UpdatedBefore := Instant(opts.updatedBefore.value)]
    else q
  }

  // ---- url.Values.Encode ----

  /** The characters url.QueryEscape leaves alone. */
  predicate Unreserved(c: char) {
    'A' <= c <= 'Z' || 'a' <= c <= 'z' || '0' <= c <= '9' || c == '-' || c == '_' || c == '.' || c == '~'
  }

  /** The UTF-8 bytes of a character. */
  function Utf8(c: char): (r: seq<int>)
    ensures 1 <= |r| <= 4 && forall i :: 0 <= i < |r| ==> 0 <= r[i] < 256
    ensures c as int < 0x80 ==> r == [c as int]
  {
    var n := c as int;
    if n < 0x80 then [n]
    else if n < 0x800 then [0xC0 + n / 64, 0x80 + n % 64]
    else if n < 0x10000 then [0xE0 + n / 4096, 0x80 + (n / 64) % 64, 0x80 + n % 64]
    else [0xF0 + n / 262144, 0x80 + (n / 4096) % 64, 0x80 + (n / 64) % 64, 0x80 + n % 64]
  }

  const UpperHex: string := "0123456789ABCDEF"

  /** "%XX" for each byte, in upper-case hexadecimal. */
  function PercentBytes(bytes: seq<int>): (r: string)
    requires forall i :: 0 <= i < |bytes| ==> 0 <= bytes[i] < 256
    ensures |r| == 3 * |bytes|
    decreases |bytes|
  {
    if bytes == [] then ""
    else ['%', UpperHex[bytes[0] / 16], UpperHex[bytes[0] % 16]] + PercentBytes(bytes[1..])
  }

  /** url.QueryEscape of one character: kept, a space as '+', or its bytes percent-encoded. */
  function EscapeChar(c: char): string {
    if Unreserved(c) then [c] else if c == ' ' then "+" else PercentBytes(Utf8(c))
  }

  /** url.QueryEscape. */
  function QueryEscape(s: string): string
    decreases |s|
  {
    if s == [] then "" else EscapeChar(s[0]) + QueryEscape(s[1..])
  }

  /** The "key=value" pairs of q for the names in order that q holds, in that order. */
  function EncodePairs(q: map<QueryName, QueryValue>, order: seq<QueryName>): seq<string>
    decreases |order|
  {
    if order == [] then []
    else
      var rest := EncodePairs(q, order[1..]);
      if order[0] in q then [QueryEscape(NameText(order[0])) + "=" + QueryEscape(ValueText(q[order[0]]))] + rest else rest
  }

  function Join(parts: seq<string>, sep: string): string
    decreases |parts|
  {
    if parts == [] then "" else if |parts| == 1 then parts[0] else parts[0] + sep + Join(parts[1..], sep)
  }

  /** url.Values.Encode of a ListProducts query: the pairs sorted by name, joined by '&'. */
  function Encode(q: map<QueryName, QueryValue>): string {
    Join(EncodePairs(q, QueryOrder), "&")
  }

  /** The request URL: the product listing path of the business and branch, then the encoded query. */
  function RequestUrl(c: Client, opts: ListProductsOptions): string {
    c.baseUrl + "/api/business/" + c.businessId + "/branch/" + opts.branchId + "/product?" + Encode(ListQuery(opts))
  }

  const EmptyBody: string := "<empty body>"

  /** The reason an error answer carries: its trimmed body, or "<empty body>" when that is empty. */
  function ErrorBody(body: string): (r: string)
    ensures r != ""
    ensures TrimSpace(body) != "" ==> r == TrimSpace(body)
  {
    var msg := TrimSpace(body);
    if msg == "" then EmptyBody else msg
  }

  /** The error of an answer with status 300 or more: the URL, the status and the reason. */
  function StatusError(url: string, status: int, body: string): string {
    ("phorest: list products " + url + " returned " + Itoa(status)) + (": " + ErrorBody(body))
  }

  /**
   * ListProducts for the answer `reply`: a transport error is the call's error; a status of
   * 300 or more is an error naming the URL, the status and the body; otherwise the page is
   * whatever the body decodes to.
   */
  function ListProducts(c: Client, opts: ListProductsOptions, reply: HttpReply): (r: Result<ProductsPage>)
    ensures reply.TransportError? ==> r == Err(reply.msg)
    ensures reply.HttpResponse? && reply.status >= 300 ==>
      r.Err? && r.msg == StatusError(RequestUrl(c, opts), reply.status, reply.body)
    ensures reply.HttpResponse? && reply.status < 300 ==> r == reply.decoded
  {
    match reply
    case TransportError(e) => Err(e)
    case HttpResponse(status, body, decoded) =>
      if status >= 300 then
        Err(StatusError(RequestUrl(c, opts), status, body))
      else decoded
  }

  // ---- what the query promises ----

  /** A character that can appear in an escaped string: never '&', '=' or a space. */
  predicate EscapedChar(c: char) {
    Unreserved(c) || c == '+' || c == '%'
  }

  lemma PercentBytesSafe(bytes: seq<int>)
    requires forall i :: 0 <= i < |bytes| ==> 0 <= bytes[i] < 256
    ensures forall i :: 0 <= i < |PercentBytes(bytes)| ==> EscapedChar(PercentBytes(bytes)[i])
    decreases |bytes|
  {
    if bytes != [] {
      PercentBytesSafe(bytes[1..]);
      var head := ['%', UpperHex[bytes[0] / 16], UpperHex[bytes[0] % 16]];
      assert forall i :: 0 <= i < |head| ==> EscapedChar(head[i]);
      assert PercentBytes(bytes) == head + PercentBytes(bytes[1..]);
    }
  }

  /**
   * An escaped string holds only unreserved characters, '+' and '%': no '&' or '=' can come
   * from a value, so the encoded query splits back into exactly its pairs.
   */
  lemma {:induction false} QueryEscapeSafe(s: string)
    ensures forall i :: 0 <= i < |QueryEscape(s)| ==> EscapedChar(QueryEscape(s)[i])
    decreases |s|
  {
    if s != [] {
      QueryEscapeSafe(s[1..]);
      if !Unreserved(s[0]) && s[0] != ' ' {
        PercentBytesSafe(Utf8(s[0]));
      }
      var head := EscapeChar(s[0]);
      assert forall i :: 0 <= i < |head| ==> EscapedChar(head[i]);
      assert QueryEscape(s) == head + QueryEscape(s[1..]);
    }
  }

  /** A string of unreserved characters is sent as it is. */
  lemma {:induction false} QueryEscapeUnreserved(s: string)
    requires forall i :: 0 <= i < |s| ==> Unreserved(s[i])
    ensures QueryEscape(s) == s
    decreases |s|
  {
    if s != [] {
      QueryEscapeUnreserved(s[1..]);
      assert s == [s[0]] + s[1..];
    }
  }

  lemma EndsWithAppend(a: string, b: string)
    ensures EndsWith(a + b, b)
  {
    assert (a + b)[|a|..] == b;
  }

  /** A status error always carries a reason; an empty (or all-space) body is reported as "<empty body>". */
  lemma StatusErrorReason(url: string, status: int, body: string)
    ensures TrimSpace(body) == "" ==> EndsWith(StatusError(url, status, body), ": " + EmptyBody)
    ensures TrimSpace(body) != "" ==> EndsWith(StatusError(url, status, body), ": " + TrimSpace(body))
  {
    EndsWithAppend("phorest: list products " + url + " returned " + Itoa(status), ": " + ErrorBody(body));
  }
}
