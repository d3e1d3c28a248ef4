/** The records the discovery pipeline produces and the database stores:
    discovered pages, API endpoints and forms, and the UI snapshot of a
    scouted page. Integer flags of the source (`has_forms`, `requires_auth`,
    `is_auth_page`, `is_login_form`, 0 or 1) are booleans here. */
module Records {
  import opened Wrappers

  /** A labelled text-like input of a UI snapshot. */
  datatype InputDescriptor = InputDescriptor(inputType: string, placeholder: string, labelText: string, name: string)

  /** A `<select>` of a UI snapshot with its option texts. */
  datatype SelectDescriptor = SelectDescriptor(labelText: string, options: seq<string>)

  /** The bounded snapshot of a page's interactive and semantic elements. */
  datatype UiSnapshot = UiSnapshot(
    buttons: seq<string>,
    inputs: seq<InputDescriptor>,
    links: seq<string>,
    headings: seq<string>,
    selects: seq<SelectDescriptor>,
    textSnippets: seq<string>)

  /** The `{}` stored for pages the crawler found. */
  const EmptySnapshot := UiSnapshot([], [], [], [], [], [])

  /** A discovered page (`discovered_pages` row). */
  datatype PageRecord = PageRecord(
    url: string,
    title: string,
    statusCode: int,
    responseTime: int,
    hasForms: bool,
    isAuthPage: bool,
    error: Option<string>,
    ui: UiSnapshot)

  /** A discovered API endpoint (`discovered_apis` row). */
  datatype ApiRecord = ApiRecord(
    httpMethod: string,
    url: string,
    responseStatus: int,
    responseType: string,
    requiresAuth: bool)

  /** The endpoint identity "method:url" under which endpoints are
      deduplicated. */
  function ApiKey(a: ApiRecord): string {
    a.httpMethod + ":" + a.url
  }

  /** One field of a form as the form detector describes it. */
  datatype FormField = FormField(
    tag: string,
    fieldType: string,
    name: string,
    id: string,
    required: bool,
    placeholder: string)

  /** The `fields` column: JSON text that either decodes to an array of
      field objects or does not. */
  datatype FieldsText = Encoded(fields: seq<FormField>) | Unparseable(text: string)

  /** A discovered form (`discovered_forms` row). */
  datatype FormRecord = FormRecord(
    pageUrl: string,
    action: string,
    httpMethod: string,
    fields: FieldsText,
    isLoginForm: bool)
}
