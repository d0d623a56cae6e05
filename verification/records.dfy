/**
 * The records the publication step builds from an approved draft: the article,
 * its configuration, its content and its search-index document.
 */
module Records {
  import opened Types

  /**
   * The article record saved for `news` at time `now`. The author is filled in
   * only when the draft's user exists and an author of that user's name exists;
   * the channel only when the draft's channel exists.
   */
  function ArticleFor(news: WmNews, now: int, users: map<int, WmUser>, authors: map<string, ApAuthor>,
                      channels: map<int, AdChannel>): (a: ApArticle)
    ensures a.title == news.title && a.layout == news.layout && a.images == news.images
    ensures a.publishTime == news.publishTime && a.createdTime == now
    ensures a.authorId.Some? <==>
      news.userId.Some? && news.userId.value in users && users[news.userId.value].name in authors
    ensures a.authorId.Some? ==>
      var author := authors[users[news.userId.value].name];
      a.authorId == Some(author.id) && a.authorName == Some(author.name)
    ensures a.authorId.None? ==> a.authorName.None?
    ensures a.channelId.Some? <==> news.channelId.Some? && news.channelId.value in channels
    ensures a.channelId.Some? ==>
      a.channelId == Some(channels[news.channelId.value].id) &&
      a.channelName == Some(channels[news.channelId.value].name)
    ensures a.channelId.None? ==> a.channelName.None?
  {
    var author :=
      if news.userId.Some? && news.userId.value in users && users[news.userId.value].name in authors
      then Some(authors[users[news.userId.value].name]) else None;
    var channel :=
      if news.channelId.Some? && news.channelId.value in channels
      then Some(channels[news.channelId.value]) else None;
    ApArticle(
      title := news.title,
      layout := news.layout,
      images := news.images,
      authorId := if author.Some? then Some(author.value.id) else None,
      authorName := if author.Some? then Some(author.value.name) else None,
      channelId := if channel.Some? then Some(channel.value.id) else None,
      channelName := if channel.Some? then Some(channel.value.name) else None,
      publishTime := news.publishTime,
      createdTime := now)
  }

  /** The configuration of a new article: forwardable, not deleted, not taken down, open to comments. */
  function DefaultConfig(articleId: int): ApArticleConfig
  {
    ApArticleConfig(articleId, isForward := true, isDelete := false, isDown := false, isComment := true)
  }

  /** The search document of article `id`: the article's fields and the draft's raw body. */
  function IndexDocFor(id: int, article: ApArticle, news: WmNews): (doc: IndexDoc)
    ensures doc.id == id && doc.content == news.content
    ensures doc.title == article.title && doc.layout == article.layout && doc.images == article.images
    ensures doc.publishTime == article.publishTime && doc.authorId == article.authorId
  {
    IndexDoc(id, article.publishTime, article.layout, article.images, article.authorId, article.title, news.content)
  }
}
