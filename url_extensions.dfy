/** `URL.baseHostName`: the registrable-domain suffix used to recognise Wikipedia hosts. */
module UrlExtensions {
  import opened Wrappers
  import opened Text
  import opened Urls

  /** Swift's `suffix(_:)`: the last `n` elements, or all of them when there are fewer. */
  function Suffix<T>(xs: seq<T>, n: nat): (r: seq<T>)
    ensures |r| == if |xs| <= n then |xs| else n
    ensures forall i :: 0 <= i < |r| ==> r[i] == xs[|xs| - |r| + i]
  {
    if |xs| <= n then xs else xs[|xs| - n..]
  }

  /**
   * `host.split(separator: ".").suffix(2).joined(separator: ".")`: the last two
   * non-empty labels of a host name. Its own labels are exactly those, so it has at
   * most one dot and, unless empty, no empty label.
   */
  function BaseHost(host: string): (r: string)
    ensures Split(r, '.') == Suffix(Split(host, '.'), 2)
    ensures multiset(r)['.'] <= 1
    ensures r != "" ==> forall piece :: piece in Fields(r, '.') ==> piece != ""
  {
    var labels := Suffix(Split(host, '.'), 2);
    SplitOfJoin(labels, '.');
    if labels == [] then Join(labels, '.')
    else
      SeparatorCount(labels, '.');
      FieldsOfJoin(labels, '.');
      Join(labels, '.')
  }

  /** `URL.baseHostName`: absent exactly when the URL has no host. */
  function BaseHostName(url: Url): (r: Option<string>)
    ensures r.None? <==> url.host.None?
    ensures r.Some? ==> r.value == BaseHost(url.host.value)
  {
    match url.host
    case None => None
    case Some(host) => Some(BaseHost(host))
  }

  /** A base host name is its own base host name. */
  lemma BaseHostIdempotent(host: string)
    ensures BaseHost(BaseHost(host)) == BaseHost(host)
  {
  }

  /** A host made of exactly two non-empty labels is returned unchanged. */
  lemma BaseHostOfTwoLabels(first: string, second: string)
    requires first != "" && second != "" && '.' !in first && '.' !in second
    ensures BaseHost(first + "." + second) == first + "." + second
  {
    var labels := [first, second];
    assert Join(labels, '.') == first + "." + second;
    SplitOfJoin(labels, '.');
  }

  /** Deeper hosts keep their last two labels: "en.wikipedia.org" becomes "wikipedia.org". */
  lemma BaseHostOfWikipedia()
    ensures BaseHost("en.wikipedia.org") == "wikipedia.org"
  {
    var labels := ["en", "wikipedia", "org"];
    var tail := ["wikipedia", "org"];
    assert labels[1..] == tail && tail[1..] == ["org"];
    assert Join(tail, '.') == "wikipedia.org";
    assert Join(labels, '.') == "en" + "." + "wikipedia.org" == "en.wikipedia.org";
    SplitOfJoin(labels, '.');
    assert Suffix(labels, 2) == tail;
  }
}
