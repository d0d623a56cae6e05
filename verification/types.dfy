/**
 * The values the article review service exchanges with the self-media (wemedia)
 * service, the article service, the channel table and the search index.
 * A Java reference that may be null is an Option.
 */
module Types {

  datatype Option<T> = None | Some(value: T)

  /** One element of an article body, the JSON object {"type": kind, "value": value}. */
  datatype Segment = Segment(kind: string, value: string)

  /** Draft status codes (the `status` column of a self-media article). */
  const PENDING_SCAN: int := 1
  const REJECTED: int := 2
  const MANUAL_REVIEW: int := 3
  const MANUALLY_APPROVED: int := 4
  const SCHEDULED: int := 8
  const PUBLISHED: int := 9

  /**
   * A self-media draft (WmNews). `content` is the raw JSON body as stored;
   * `body` is what the JSON parser makes of it, None when parsing throws.
   * `layout` is the draft's `type` column (0: no cover image); `images` is the
   * comma-separated cover image list; times are milliseconds since the epoch.
   */
  datatype WmNews = WmNews(
    id: int,
    userId: Option<int>,
    channelId: Option<int>,
    title: string,
    content: string,
    body: Option<seq<Segment>>,
    layout: int,
    images: Option<string>,
    status: int,
    reason: Option<string>,
    publishTime: Option<int>,
    articleId: Option<int>)

  /** A self-media user account (WmUser). */
  datatype WmUser = WmUser(id: int, name: string)

  /** An author of the article domain (ApAuthor), looked up by name. */
  datatype ApAuthor = ApAuthor(id: int, name: string)

  /** A channel of the admin domain (AdChannel). */
  datatype AdChannel = AdChannel(id: int, name: string)

  /** A published article record (ApArticle); its id is the key it is stored under. */
  datatype ApArticle = ApArticle(
    title: string,
    layout: int,
    images: Option<string>,
    authorId: Option<int>,
    authorName: Option<string>,
    channelId: Option<int>,
    channelName: Option<string>,
    publishTime: Option<int>,
    createdTime: int)

  /** The flags of a published article (ApArticleConfig). */
  datatype ApArticleConfig = ApArticleConfig(
    articleId: int, isForward: bool, isDelete: bool, isDown: bool, isComment: bool)

  /** The body of a published article (ApArticleContent). */
  datatype ApArticleContent = ApArticleContent(articleId: int, content: string)

  /** The document written to the search index "app_info_article" under the article id. */
  datatype IndexDoc = IndexDoc(
    id: int,
    publishTime: Option<int>,
    layout: int,
    images: Option<string>,
    authorId: Option<int>,
    title: string,
    content: string)
}
