# A Dafny model of the portfolio site's behaviour

The site is a single-file Next.js application (`My_Test_Website.js`). Nearly all of
it is markup. This project models the parts that have behaviour you can state and
proves properties about them:

- **`wrapLabel`** (module `LabelWrap`, file `label_wrap.dfy`) is the chart-label
  wrapper. It returns a label that fits in `maxLength` (default 16) unchanged.
  A longer label is split on single spaces, and its words are packed greedily onto
  trimmed lines. The method `WrapLabel` follows the source's loop step by step. It
  is proved equal to the function `Wrap`, which packs groups of words with `Pack`.
  `GreedyPartition` describes the greedy packing independently of the loop. The
  lemmas show that `Wrap`'s groups are a greedy packing, that there is only one
  such packing, that words are never dropped, reordered or split, and that lines
  of two or more words fit. They also show that single-space-separated labels
  round-trip through `join(' ')`.
- **The content store** (module `Content`) holds the project and blog-post records
  as immutable sequences. `FindBySlug` is the first-match `find` of `getStaticProps`.
  `StaticPaths` is the slug enumeration of `getStaticPaths`. `ProjectDetailPage`
  and `BlogPostPage` turn a missing record into the not-found state.
- **The contact API `handler`** (module `ContactApi`) is a pure function. It maps the
  request's method and body fields to the status, the `Allow` header, the body, and
  whether the submission went on to be processed.
- **The navigation bar's active-link predicate** (module `Navbar`).
- **The contact form** (module `ContactForm`) is a class `ContactPage` whose fields
  are the form data and the status line. `HandleChange` and `HandleSubmit` update
  them. The network is an input: `HandleSubmit` takes the server as a function from
  the posted form to the `fetch` outcome. `FillAndSubmit` wires the form to the
  modelled `handler`.
- `Text` holds the JavaScript string operations used above (`trim`, `split(' ')`,
  `join(' ')`, `startsWith`). `Wrappers` holds `Option`, which stands for `undefined`.

## Model

| member | source | states |
|---|---|---|
| Text.TrimSpec | My_Test_Website.js:40 | `trim()` returns the slice of its input left after removing white space at both ends: everything before and after that slice is white space, and the result neither starts nor ends with white space. |
| Text.Split | My_Test_Website.js:34 | `split(' ')` always yields at least one piece. No piece contains a space, and joining the pieces with single spaces gives back the input. |
| Text.SplitJoin | My_Test_Website.js:34 | Splitting undoes joining for any non-empty list of space-free words. |
| LabelWrap.WrapLabel | My_Test_Website.js:32-47 | The loop computes `Wrap` exactly. The label comes back unchanged exactly when its length is at most `maxLength`. |
| LabelWrap.GroupsAreGreedy | My_Test_Website.js:34-46 | The word groups behind the lines form a greedy packing. There is at least one group, and no group is empty. Together the groups hold exactly the split words, in order. A group of two or more words fits when joined. Each later group starts with a word that would have pushed the previous line past the limit. |
| LabelWrap.GreedyPartitionUnique | My_Test_Website.js:38-43 | Any two greedy packings of the same words are equal. |
| LabelWrap.WrapIsTheGreedyPacking | My_Test_Website.js:34-46 | For a long label, the lines are those of any greedy packing of its words. |
| LabelWrap.WrapYieldsLines | My_Test_Website.js:45-46 | A label longer than `maxLength` yields a list of lines, never the string, and at least one line because the final line is always pushed. |
| LabelWrap.LineFits | My_Test_Website.js:38-43 | Every line holding two or more words is at most `maxLength` long. |
| LabelWrap.LongWordAlone | My_Test_Website.js:38-43 | A word of length at least `maxLength` sits alone in its group. Its line is that word, trimmed and uncut. |
| LabelWrap.RoundTrip | My_Test_Website.js:34-46 | Take a long label made of non-empty, space-free words that neither start nor end with white space, separated by single spaces. Rejoining its lines with `' '` gives back the label. Splitting that again gives back the same words. |
| LabelWrap.WrapExample | My_Test_Website.js:32-47 | With the default limit of 16, "Cloud Computing Services" wraps to the two lines "Cloud Computing" and "Services". |
| LabelWrap.WrappedChartLabels | My_Test_Website.js:348 | Every skill label of the About page's chart comes back unchanged. |
| Content.FindBySlug | My_Test_Website.js:569 | The lookup returns nothing exactly when no record carries the slug. Otherwise it returns a record of the store that carries the slug. |
| Content.FindReturnsFirstMatch | My_Test_Website.js:658 | The lookup returns the first record carrying the slug. |
| Content.StaticPaths | My_Test_Website.js:562-565 | There is exactly one path per record, in store order, and the i-th path is the i-th record's slug. |
| Content.EveryPathResolves | My_Test_Website.js:651-654 | Resolving any enumerated path finds a record carrying that slug, so no path is orphaned. |
| Content.PathResolvesToItsRecord | My_Test_Website.js:561-575 | When slugs are distinct, resolving the i-th path returns exactly the i-th record. |
| Content.StoreSlugsDistinct | My_Test_Website.js:160-279 | The project slugs and the post slugs are each pairwise distinct. The enumerated paths are exactly the five slugs of the data. |
| Content.ProjectDetailPage | My_Test_Website.js:530-533 | A missing project renders "Project not found." and a present one renders that record. |
| Content.BlogPostPage | My_Test_Website.js:630-633 | A missing post renders "Post not found." and a present one renders that record. |
| Content.ProjectRouteResolves | My_Test_Website.js:568-575 | The slug lookup of `getStaticProps` composed with the project detail page shows a project with that slug exactly when the slug is enumerated, and the not-found state otherwise. |
| Content.BlogRouteResolves | My_Test_Website.js:657-664 | The slug lookup of `getStaticProps` composed with the blog post page shows a post with that slug exactly when the slug is enumerated, and the not-found state otherwise. |
| ContactApi.Handler | My_Test_Website.js:779-807 | The status is 405 exactly for a method other than POST, and exactly then is `Allow: POST` set. The status is 400 with "All fields are required." exactly for a POST with a falsy field. It is 200 with "Message received successfully!" exactly for a POST with all three fields truthy. Processing happens exactly when the status is 200. |
| ContactApi.NamedSubmissions | My_Test_Website.js:780-806 | A full submission gets 200. One with an empty or missing message gets 400. A GET gets 405 with `Allow: POST`. |
| ContactApi.MethodDecidedFirst | My_Test_Website.js:780 | For a method other than POST, the response does not depend on the body. |
| ContactForm.FormData.With | My_Test_Website.js:672 | Only the named field is replaced. Every other field keeps its value. |
| ContactForm.Reason | My_Test_Website.js:694 | `result.message \|\| 'Unknown error'` is never empty. It is the server's message whenever that message is non-empty, and "Unknown error" when the message is missing or empty. |
| ContactForm.SettledStatusCases | My_Test_Website.js:688-698 | The final status is never "Sending...". It is the success text exactly when the response was ok and JSON. It is the generic error text exactly when `fetch` threw or the body was not JSON. Otherwise it is the failure prefix followed by the reason. |
| ContactForm.Deliver | My_Test_Website.js:688-690 | `response.ok` means a 2xx status. A JSON body's `message` reaches the page as `result.message`. The handler's plain-text 405 body cannot be parsed as JSON. |
| ContactForm.ContactPage.constructor | My_Test_Website.js:668-669 | The form starts with three empty fields and the status starts empty. |
| ContactForm.ContactPage.HandleChange | My_Test_Website.js:671-673 | The named field takes the new value. The other fields and the status are unchanged. |
| ContactForm.ContactPage.HandleSubmit | My_Test_Website.js:675-699 | The status becomes "Sending..." first and then settles on the outcome for the posted form. The form is cleared only on success and is otherwise kept. |
| ContactForm.FillAndSubmit | My_Test_Website.js:675-699 | Fill in the three fields and run `handleSubmit` on them against the modelled handler. The page reports success and clears the form exactly when every field is non-empty. Otherwise it shows "Failed to send message: All fields are required." and keeps what was typed. |
| Navbar.RootActiveOnlyAtRoot | My_Test_Website.js:126 | The home item is active only when the pathname is exactly `/`. |
| Navbar.OtherActiveOnPrefix | My_Test_Website.js:126 | Any other item is active exactly when the pathname starts with its path. |
| Navbar.ActiveItems | My_Test_Website.js:121-126 | The highlighted names are exactly the names of the active items. |
| Navbar.AtMostOneActive | My_Test_Website.js:106-126 | Whatever the pathname, at most one item of the bar is highlighted. |
| Navbar.OneHighlightedName | My_Test_Website.js:106-126 | Whatever the pathname, the list of highlighted names has at most one entry. |
| Navbar.DetailRoutesHighlightTheirSection | My_Test_Website.js:106-126 | The project and blog detail routes highlight only "Projects" and only "Blog" respectively. |

## Left out

- JSX markup and everything visual: `Layout`, `Navbar` and `Footer` markup, Tailwind classes, `Head` and the status banner's colour. These are presentation only.
- Chart.js, the `useEffect` lifecycle and the tooltip callback of the About page: a foreign library and React effects. Only the `wrapLabel` mapping over the chart labels is kept.
- `fetch`, the request headers, `JSON.stringify`, the `setTimeout` delay and `console.log` in the handler: I/O and timing. The network outcome is an input (`FetchResult`), and the handler's processing is reduced to the boolean `processed`.
- `e.preventDefault()`, and edits typed while a submission is in flight: browser behaviour and interleaving across the `await`. `HandleSubmit` is atomic in the model.
- Next.js routing machinery: `useRouter`, `Link`, `fallback: false`, the `{ params: { slug } }` wrapping of each path, and the list pages' `getStaticProps`, which pass the whole store through unchanged. All of it is framework glue. Paths are modelled as their slugs.
- `dangerouslySetInnerHTML` and the long `description`, `excerpt` and `fullContent` texts. The bodies are replaced by short stand-in strings, and no property depends on them.
- Content.ProjectRouteResolves, Content.BlogRouteResolves: both `getStaticPaths` set `fallback: false`, so Next.js answers an unlisted slug with its own 404 page before `getStaticProps` runs. The not-found branch of the detail pages is therefore never reached from a route. Next.js's refusal to serialise an `undefined` prop is not modelled either. The lemmas state the lookup composed with the detail page, not the framework's routing.
- ContactForm.FillAndSubmit: the browser's form validation is not modelled. The inputs carry `required` and the email input has `type="email"`, so on the real page an empty field or a malformed email blocks the submit event and `handleSubmit` never runs. The contract describes what happens when `handleSubmit` runs on the typed fields.
- `new Date().getFullYear()` in the footer, which depends on the clock.
- LabelWrap.WrapLabel: lengths are counted in Unicode characters. JavaScript counts UTF-16 code units, so the two differ for characters outside the Basic Multilingual Plane.
- ContactApi.Handler: JSON numbers in the request body are integers. Fractional numbers are not modelled, and a malformed or missing body is not modelled.
- ContactForm.Reason: only a string `message` in the reply is modelled. A reply whose `message` is a non-string value, or whose JSON is not an object, is not modelled.
