/**
 * The automatic review service of self-media articles. Each remote store the
 * service reads or writes is a field: the drafts and users of the self-media
 * service, the authors, articles, configurations and contents of the article
 * service, the channel and sensitive-word tables, and the search index.
 * `writes` lists every remote write in the order the service issues it.
 */
module AutoScan {
  import opened Types
  import opened Extraction
  import opened Sensitive
  import opened Review
  import opened Records

  /** One remote write. */
  datatype Write =
    | DraftUpdated(news: WmNews)
    | ArticleSaved(id: int, article: ApArticle)
    | ConfigSaved(config: ApArticleConfig)
    | ContentSaved(content: ApArticleContent)
    | Indexed(doc: IndexDoc)

  /** An exception that ends a review before anything is written. */
  datatype Fault =
    | BodyNotParsed       // the body is not a JSON array of segments
    | PublishTimeMissing  // a scheduled draft without a publish time

  /** The path a review took (the Java method returns nothing; it logs this). */
  datatype Outcome =
    | NullId
    | DraftNotFound
    | Published(articleId: int)
    | Rejected
    | AwaitingManualReview
    | Ignored
    | Aborted(fault: Fault)

  /** The response codes of the manual decision. */
  datatype ResponseCode = Success | ParamInvalid | DataNotExist

  /** The manual decision's request: the draft id and the administrator's message. */
  datatype NewsAuthDto = NewsAuthDto(id: Option<int>, msg: Option<string>)

  /** The draft after publication as article `articleId`. */
  function PublishedDraft(news: WmNews, articleId: int): (d: WmNews)
    ensures d.id == news.id && d.content == news.content && d.title == news.title
    ensures d.status == PUBLISHED && d.reason == Some(REASON_APPROVED) && d.articleId == Some(articleId)
    ensures d.(articleId := news.articleId, status := news.status, reason := news.reason) == news
  {
    news.(articleId := Some(articleId), status := PUBLISHED, reason := Some(REASON_APPROVED))
  }

  /**
   * Drafts are stored under their own ids; article ids already handed out
   * are below nextArticleId; an article has a configuration and a content
   * record and nothing else does; the index holds only articles.
   */
  ghost predicate StoresValid(drafts: map<int, WmNews>, articles: map<int, ApArticle>,
                              configs: map<int, ApArticleConfig>, contents: map<int, ApArticleContent>,
                              index: map<int, IndexDoc>, nextArticleId: int)
  {
    && (forall k :: k in drafts ==> drafts[k].id == k)
    && (forall k :: k in articles ==> k < nextArticleId)
    && configs.Keys == articles.Keys
    && contents.Keys == articles.Keys
    && index.Keys <= articles.Keys
    && (forall k :: k in configs ==> configs[k].articleId == k)
    && (forall k :: k in contents ==> contents[k].articleId == k)
  }

  /** Publishing one draft as article `id`, the next fresh id, keeps the stores consistent. */
  lemma PublishKeepsStoresValid(drafts: map<int, WmNews>, articles: map<int, ApArticle>,
                                configs: map<int, ApArticleConfig>, contents: map<int, ApArticleContent>,
                                index: map<int, IndexDoc>, id: int, news: WmNews, article: ApArticle,
                                content: string, doc: Option<IndexDoc>)
    requires StoresValid(drafts, articles, configs, contents, index, id)
    ensures id !in articles
    ensures StoresValid(drafts[news.id := PublishedDraft(news, id)], articles[id := article],
                        configs[id := DefaultConfig(id)], contents[id := ApArticleContent(id, content)],
                        if doc.Some? then index[id := doc.value] else index, id + 1)
  {
  }

  class WemediaNewsAutoScanService {
    var drafts: map<int, WmNews>
    var users: map<int, WmUser>
    var authors: map<string, ApAuthor>
    var channels: map<int, AdChannel>
    var dictionary: seq<string>
    var articles: map<int, ApArticle>
    var configs: map<int, ApArticleConfig>
    var contents: map<int, ApArticleContent>
    var index: map<int, IndexDoc>
    /** The id the article service gives the next article it saves. */
    var nextArticleId: int
    var writes: seq<Write>

    /** The stores this service sees are consistent. */
    ghost predicate Valid()
      reads this
    {
      StoresValid(drafts, articles, configs, contents, index, nextArticleId)
    }

    constructor (drafts: map<int, WmNews>, users: map<int, WmUser>, authors: map<string, ApAuthor>,
                 channels: map<int, AdChannel>, dictionary: seq<string>)
      requires forall k :: k in drafts ==> drafts[k].id == k
      ensures Valid()
      ensures this.drafts == drafts && this.users == users && this.authors == authors
      ensures this.channels == channels && this.dictionary == dictionary
      ensures articles == map[] && configs == map[] && contents == map[] && index == map[]
      ensures writes == []
    {
      this.drafts := drafts;
      this.users := users;
      this.authors := authors;
      this.channels := channels;
      this.dictionary := dictionary;
      articles, configs, contents, index := map[], map[], map[], map[];
      nextArticleId := 1;
      writes := [];
    }

    /** Sets the draft's status and reason and writes the draft back to the self-media service. */
    method UpdateWmNews(news: WmNews, status: int, msg: Option<string>) returns (updated: WmNews)
      modifies this`drafts, this`writes
      ensures updated == news.(status := status, reason := msg)
      ensures drafts == old(drafts)[news.id := updated]
      ensures writes == old(writes) + [DraftUpdated(updated)]
    {
      updated := news.(status := status, reason := msg);
      drafts := drafts[news.id := updated];
      writes := writes + [DraftUpdated(updated)];
    }

    /** Runs the matcher over the plain text; on a hit, marks the draft rejected and writes it. */
    method HandleSensitive(content: string, news: WmNews) returns (pass: bool, updated: WmNews)
      modifies this`drafts, this`writes
      ensures pass <==> MatchWords(dictionary, content) == {}
      ensures pass ==> updated == news && drafts == old(drafts) && writes == old(writes)
      ensures !pass ==>
        && updated == news.(status := REJECTED, reason := Some(REASON_SENSITIVE))
        && drafts == old(drafts)[news.id := updated]
        && writes == old(writes) + [DraftUpdated(updated)]
    {
      pass := true;
      updated := news;
      var resultMap := MatchWords(dictionary, content);
      if resultMap != {} {
        updated := UpdateWmNews(news, REJECTED, Some(REASON_SENSITIVE));
        pass := false;
      }
    }

    /**
     * Builds the article record of `news` and saves it; the article service
     * stores it under a fresh id, which is returned with the record.
     */
    method SaveArticle(news: WmNews, now: int) returns (id: int, article: ApArticle)
      modifies this`articles, this`nextArticleId, this`writes
      ensures id == old(nextArticleId) && nextArticleId == id + 1
      ensures article == ArticleFor(news, now, users, authors, channels)
      ensures articles == old(articles)[id := article]
      ensures writes == old(writes) + [ArticleSaved(id, article)]
    {
      article := ApArticle(title := news.title, layout := news.layout, images := news.images,
                           authorId := None, authorName := None, channelId := None, channelName := None,
                           publishTime := None, createdTime := now);
      if news.userId.Some? && news.userId.value in users {
        var wmUser := users[news.userId.value];
        if wmUser.name in authors {
          var apAuthor := authors[wmUser.name];
          article := article.(authorId := Some(apAuthor.id), authorName := Some(apAuthor.name));
        }
      }
      if news.channelId.Some? && news.channelId.value in channels {
        var channel := channels[news.channelId.value];
        article := article.(channelId := Some(channel.id), channelName := Some(channel.name));
      }
      article := article.(publishTime := news.publishTime);
      id := nextArticleId;
      nextArticleId := nextArticleId + 1;
      articles := articles[id := article];
      writes := writes + [ArticleSaved(id, article)];
    }

    /** Saves the default configuration of article `id`. */
    method SaveArticleConfig(id: int)
      modifies this`configs, this`writes
      ensures configs == old(configs)[id := DefaultConfig(id)]
      ensures writes == old(writes) + [ConfigSaved(DefaultConfig(id))]
    {
      var config := DefaultConfig(id);
      configs := configs[id := config];
      writes := writes + [ConfigSaved(config)];
    }

    /** Saves the draft's raw body as the content of article `id`. */
    method SaveArticleContent(id: int, news: WmNews)
      modifies this`contents, this`writes
      ensures contents == old(contents)[id := ApArticleContent(id, news.content)]
      ensures writes == old(writes) + [ContentSaved(ApArticleContent(id, news.content))]
    {
      var content := ApArticleContent(articleId := id, content := news.content);
      contents := contents[id := content];
      writes := writes + [ContentSaved(content)];
    }

    /**
     * The state after publishing `news` at `now` as article `id`: the article,
     * its default configuration and its content are new, the draft is marked
     * published and linked to the article, the index holds the article's
     * document unless the index write failed, and the writes came in that order.
     */
    twostate predicate PublishedFrom(news: WmNews, now: int, indexFails: bool, id: int)
      reads this
    {
      var article := ArticleFor(news, now, old(users), old(authors), old(channels));
      var doc := IndexDocFor(id, article, news);
      && id == old(nextArticleId) && id !in old(articles) && nextArticleId == id + 1
      && articles == old(articles)[id := article]
      && configs == old(configs)[id := DefaultConfig(id)]
      && contents == old(contents)[id := ApArticleContent(id, news.content)]
      && drafts == old(drafts)[news.id := PublishedDraft(news, id)]
      && index == (if indexFails then old(index) else old(index)[id := doc])
      && writes == old(writes) +
           [ArticleSaved(id, article), ConfigSaved(DefaultConfig(id)),
            ContentSaved(ApArticleContent(id, news.content)), DraftUpdated(PublishedDraft(news, id))] +
           (if indexFails then [] else [Indexed(doc)])
    }

    /**
     * Publishes an approved draft: article, configuration, content, the draft
     * update, then the index document; `indexFails` stands for the search
     * client's I/O exception, which is caught and undoes nothing.
     */
    method SaveAppArticle(news: WmNews, now: int, indexFails: bool) returns (id: int, published: WmNews)
      requires Valid()
      modifies this`articles, this`nextArticleId, this`configs, this`contents, this`drafts, this`index, this`writes
      ensures Valid()
      ensures PublishedFrom(news, now, indexFails, id)
      ensures published == PublishedDraft(news, id)
    {
      var apArticle;
      id, apArticle := SaveArticle(news, now);
      SaveArticleConfig(id);
      SaveArticleContent(id, news);
      var linked := news.(articleId := Some(id));
      published := UpdateWmNews(linked, PUBLISHED, Some(REASON_APPROVED));
      assert published == PublishedDraft(news, id);
      ghost var stored := writes;
      assert stored == old(writes) +
        [ArticleSaved(id, apArticle), ConfigSaved(DefaultConfig(id)),
         ContentSaved(ApArticleContent(id, news.content)), DraftUpdated(published)];
      var doc := IndexDocFor(id, apArticle, news);
      if !indexFails {
        index := index[id := doc];
        writes := writes + [Indexed(doc)];
      } else {
        assert writes == stored + [];
      }
      PublishKeepsStoresValid(old(drafts), old(articles), old(configs), old(contents), old(index), id,
                              news, apArticle, news.content, if indexFails then None else Some(doc));
    }

    /** The state after scanning `news`, whose body parsed, against the dictionary. */
    twostate predicate ScannedFrom(news: WmNews, outcome: Outcome)
      requires news.body.Some?
      reads this
    {
      var hit := MatchWords(old(dictionary), BodyText(news.body.value)) != {};
      var verdict := ScanVerdict(hit);
      var final := news.(status := verdict.0, reason := Some(verdict.1));
      && outcome == (if hit then Rejected else AwaitingManualReview)
      && drafts == old(drafts)[news.id := final]
      && writes == old(writes) +
           (if hit then [DraftUpdated(news.(status := REJECTED, reason := Some(REASON_SENSITIVE)))] else []) +
           [DraftUpdated(final)]
      && articles == old(articles) && configs == old(configs) && contents == old(contents)
      && index == old(index) && nextArticleId == old(nextArticleId)
    }

    /** The state after reviewing the stored draft `news` at time `now`. */
    twostate predicate ReviewedFrom(news: WmNews, now: int, indexFails: bool, outcome: Outcome)
      reads this
    {
      match ChooseBranch(news.status, news.publishTime, now)
      case Publish => outcome.Published? && PublishedFrom(news, now, indexFails, outcome.articleId)
      case NullPublishTime => outcome == Aborted(PublishTimeMissing) && unchanged(this)
      case NoAction => outcome == Ignored && unchanged(this)
      case Scan =>
        if news.body.None? then outcome == Aborted(BodyNotParsed) && unchanged(this)
        else ScannedFrom(news, outcome)
    }

    /**
     * Reviews draft `id` at time `now`: publishes an approved or due scheduled
     * draft, checks a pending draft's text and rejects it or hands it to a human
     * reviewer, and leaves every other draft alone.
     */
    method AutoScanByMediaNewsId(id: Option<int>, now: int, indexFails: bool) returns (outcome: Outcome)
      requires Valid()
      modifies this`articles, this`nextArticleId, this`configs, this`contents, this`drafts, this`index, this`writes
      ensures Valid()
      ensures id.None? ==> outcome == NullId && unchanged(this)
      ensures id.Some? && id.value !in old(drafts) ==> outcome == DraftNotFound && unchanged(this)
      ensures id.Some? && id.value in old(drafts) ==> ReviewedFrom(old(drafts[id.value]), now, indexFails, outcome)
    {
      if id.None? {
        return NullId;
      }
      if id.value !in drafts {
        return DraftNotFound;
      }
      var wmNews := drafts[id.value];
      if wmNews.status == MANUALLY_APPROVED {
        var articleId, _ := SaveAppArticle(wmNews, now, indexFails);
        return Published(articleId);
      }
      if wmNews.status == SCHEDULED {
        if wmNews.publishTime.None? {
          return Aborted(PublishTimeMissing);
        }
        if wmNews.publishTime.value <= now {
          var articleId, _ := SaveAppArticle(wmNews, now, indexFails);
          return Published(articleId);
        }
      }
      if wmNews.status == PENDING_SCAN {
        var contentAndImages := HandleTextAndImages(wmNews);
        if contentAndImages.None? {
          return Aborted(BodyNotParsed);
        }
        var pass, scanned := HandleSensitive(contentAndImages.value.content, wmNews);
        if !pass {
          var _ := UpdateWmNews(scanned, REJECTED, Some(REASON_BANNED));
          return Rejected;
        }
        var _ := UpdateWmNews(scanned, MANUAL_REVIEW, Some(REASON_AWAITING));
        return AwaitingManualReview;
      }
      return Ignored;
    }

    /**
     * An administrator's decision on draft `dto.id`: type 0 rejects it with the
     * administrator's message, type 1 marks it published, any other type changes
     * nothing. No article is created in any case.
     */
    method UpdateStatus(kind: int, dto: Option<NewsAuthDto>) returns (code: ResponseCode)
      requires Valid()
      modifies this`drafts, this`writes
      ensures Valid()
      ensures dto.None? || dto.value.id.None? ==> code == ParamInvalid && unchanged(this)
      ensures dto.Some? && dto.value.id.Some? && dto.value.id.value !in old(drafts) ==>
        code == DataNotExist && unchanged(this)
      ensures dto.Some? && dto.value.id.Some? && dto.value.id.value in old(drafts) ==>
        var news := old(drafts[dto.value.id.value]);
        && code == Success
        && (kind == 0 ==>
              && drafts == old(drafts)[news.id := news.(status := REJECTED, reason := dto.value.msg)]
              && writes == old(writes) + [DraftUpdated(news.(status := REJECTED, reason := dto.value.msg))])
        && (kind == 1 ==>
              && drafts == old(drafts)[news.id := news.(status := PUBLISHED, reason := Some(REASON_MANUAL_APPROVED))]
              && writes == old(writes) +
                   [DraftUpdated(news.(status := PUBLISHED, reason := Some(REASON_MANUAL_APPROVED)))])
        && (kind != 0 && kind != 1 ==> unchanged(this))
      ensures articles == old(articles) && configs == old(configs) && contents == old(contents)
      ensures index == old(index)
    {
      if dto.None? || dto.value.id.None? {
        return ParamInvalid;
      }
      if dto.value.id.value !in drafts {
        return DataNotExist;
      }
      var wmNews := drafts[dto.value.id.value];
      if kind == 0 {
        var _ := UpdateWmNews(wmNews, REJECTED, dto.value.msg);
      } else if kind == 1 {
        var _ := UpdateWmNews(wmNews, PUBLISHED, Some(REASON_MANUAL_APPROVED));
      }
      return Success;
    }
  }

  /**
   * Reviewing the same draft twice, the second time at any time not before the
   * first: once the first review has published, rejected or queued the draft,
   * the second one does nothing and writes nothing.
   */
  method ReviewTwice(svc: WemediaNewsAutoScanService, id: int, now: int, later: int, indexFails: bool)
    returns (first: Outcome, second: Outcome,
             ghost drafts1: map<int, WmNews>, ghost articles1: map<int, ApArticle>,
             ghost configs1: map<int, ApArticleConfig>, ghost contents1: map<int, ApArticleContent>,
             ghost index1: map<int, IndexDoc>, ghost nextId1: int, ghost writes1: seq<Write>)
    requires svc.Valid()
    requires now <= later
    modifies svc
    ensures svc.Valid()
    ensures first.Published? || first == Rejected || first == AwaitingManualReview ==>
      && second == Ignored
      && svc.drafts == drafts1 && svc.articles == articles1 && svc.configs == configs1
      && svc.contents == contents1 && svc.index == index1 && svc.nextArticleId == nextId1
      && svc.writes == writes1
  {
    first := svc.AutoScanByMediaNewsId(Some(id), now, indexFails);
    drafts1, articles1, configs1, contents1 := svc.drafts, svc.articles, svc.configs, svc.contents;
    index1, nextId1, writes1 := svc.index, svc.nextArticleId, svc.writes;
    if first.Published? || first == Rejected || first == AwaitingManualReview {
      var news := svc.drafts[id];
      ReviewedStatusesAreFinal(news.publishTime, later, first == Rejected);
    }
    second := svc.AutoScanByMediaNewsId(Some(id), later, indexFails);
  }
}
