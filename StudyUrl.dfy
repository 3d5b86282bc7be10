/**
 * `_is_ec2_architect`, `_ec2_external_url` and `_get_external_study_url`: the URL a
 * study sends its participants to, rewritten onto the public domain when the task
 * runs on the EC2 architect.
 */
module StudyUrl {

  /** The two configuration entries the URL resolution reads. */
  datatype TaskRunConfig = TaskRunConfig(architectType: string, externalStudyUrl: string)

  const Ec2ArchitectType := "ec2"

  /** The query string of the configured URL in the marketplace's fixture, with its three placeholders. */
  const PlaceholderQuery := "?" + "participant_id={{%PROLIFIC_PID%}}&study_id={{%STUDY_ID%}}&submission_id={{%SESSION_ID%}}"

  /** `_is_ec2_architect`. */
  predicate IsEc2Architect(config: TaskRunConfig)
  {
    config.architectType == Ec2ArchitectType
  }

  /** The index of the first `?` in `url`, or its length when it has none. */
  function QueryStart(url: string): (k: nat)
    ensures k <= |url|
    ensures forall j :: 0 <= j < k ==> url[j] != '?'
    ensures k < |url| ==> url[k] == '?'
  {
    if |url| == 0 || url[0] == '?' then 0 else 1 + QueryStart(url[1..])
  }

  /** The part of a URL from its first `?` onward (empty without one). */
  function QueryPart(url: string): string
  {
    url[QueryStart(url)..]
  }

  /** The part of a URL before its first `?`. */
  function BasePart(url: string): string
  {
    url[..QueryStart(url)]
  }

  /** `_ec2_external_url`: the public domain followed by the configured URL's query string. */
  function Ec2ExternalUrl(config: TaskRunConfig, domain: string): string
  {
    domain + QueryPart(config.externalStudyUrl)
  }

  /** `_get_external_study_url`: on EC2 the rewritten URL, otherwise the configured one unchanged. */
  function GetExternalStudyUrl(config: TaskRunConfig, domain: string): (url: string)
    ensures !IsEc2Architect(config) ==> url == config.externalStudyUrl
  {
    if IsEc2Architect(config) then Ec2ExternalUrl(config, domain) else config.externalStudyUrl
  }

  /** A URL splits into its base and its query string. */
  lemma BaseQuerySplit(url: string)
    ensures BasePart(url) + QueryPart(url) == url
    ensures '?' !in BasePart(url)
    ensures QueryPart(url) == [] || QueryPart(url)[0] == '?'
  {
    assert BasePart(url) + QueryPart(url) == url[..QueryStart(url)] + url[QueryStart(url)..];
  }

  /** The first `?` of a concatenation whose first part has none lies in the second part. */
  lemma {:induction false} QueryStartAppend(a: string, b: string)
    requires '?' !in a
    ensures QueryStart(a + b) == |a| + QueryStart(b)
  {
    if |a| > 0 {
      assert a[0] in a;
      assert (a + b)[1..] == a[1..] + b;
      assert forall c :: c in a[1..] ==> c in a;
      QueryStartAppend(a[1..], b);
    } else {
      assert a + b == b;
    }
  }

  /**
   * On EC2 the result is the domain (when it holds no `?` of its own) followed by the
   * configured query string exactly: the placeholders are carried over unchanged.
   */
  lemma Ec2UrlShape(config: TaskRunConfig, domain: string)
    requires IsEc2Architect(config)
    requires '?' !in domain
    ensures var url := GetExternalStudyUrl(config, domain);
      BasePart(url) == domain && QueryPart(url) == QueryPart(config.externalStudyUrl)
  {
    var q := QueryPart(config.externalStudyUrl);
    BaseQuerySplit(config.externalStudyUrl);
    var url := domain + q;
    assert QueryStart(q) == 0;
    QueryStartAppend(domain, q);
    assert BasePart(url) == url[..|domain|];
    assert url[..|domain|] == domain;
    assert QueryPart(url) == url[|domain|..];
    assert url[|domain|..] == q;
  }

  /** Whatever the architect, the query string the participant arrives with is the configured one. */
  lemma ExternalUrlKeepsQuery(config: TaskRunConfig, domain: string)
    requires '?' !in domain
    ensures QueryPart(GetExternalStudyUrl(config, domain)) == QueryPart(config.externalStudyUrl)
  {
    if IsEc2Architect(config) {
      Ec2UrlShape(config, domain);
    }
  }

  /** The query string of a base without `?` followed by a query string is that query string. */
  lemma QueryPartOfAppend(base: string, q: string)
    requires '?' !in base
    requires q == [] || q[0] == '?'
    ensures QueryPart(base + q) == q
  {
    QueryStartAppend(base, q);
    assert QueryStart(q) == 0;
    assert (base + q)[|base|..] == q;
  }

  /**
   * The fixture: a configured `https://example.com` URL with the placeholder query is kept as
   * it is on the local architect and moved onto `http://test.com` on EC2.
   */
  lemma ExternalUrlFixture(architectType: string)
    ensures var config := TaskRunConfig(architectType, "https://example.com" + PlaceholderQuery);
      GetExternalStudyUrl(config, "http://test.com")
      == if architectType == Ec2ArchitectType then "http://test.com" + PlaceholderQuery else config.externalStudyUrl
  {
    var base := "https://example.com";
    assert '?' !in base by {
      forall j | 0 <= j < |base| ensures base[j] != '?' { }
    }
    assert PlaceholderQuery[0] == '?';
    QueryPartOfAppend(base, PlaceholderQuery);
  }
}
