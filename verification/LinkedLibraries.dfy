/** Moving the linked library addresses of creation bytecode to the actual world (rpc-src/rewriter.ts). */
module LinkedLibraries {
  import opened Wrappers
  import opened Addresses
  import opened ChainState
  import opened AddressMap

  datatype LinkError = InvalidLinkRanges | UnresolvedLibrary | ZeroLibrary

  predicate IsHexDigit(ch: char) {
    '0' <= ch <= '9' || 'a' <= ch <= 'f' || 'A' <= ch <= 'F'
  }

  /** Two underscores and a dollar, 34 hex digits, a dollar and two underscores. */
  predicate IsPlaceholder(s: string) {
    |s| == 40 && s[..3] == "__$" && s[37..] == "$__" && forall k :: 3 <= k < 37 ==> IsHexDigit(s[k])
  }

  /** The digits of the link that starts at byte `start`. */
  predicate InLink(start: nat, k: int) {
    start * 2 <= k < start * 2 + 40
  }

  function Concrete(creation: Hex, start: nat): Address
    requires start * 2 + 40 <= |creation|
  {
    creation[start * 2..start * 2 + 40]
  }

  /** Links in order and apart, inside both codes, each over a placeholder. */
  predicate LinksFit(creation: Hex, template: string, links: seq<nat>) {
    && (forall i :: 0 <= i < |links| ==>
          && links[i] * 2 + 40 <= |creation| && links[i] * 2 + 40 <= |template|
          && IsPlaceholder(template[links[i] * 2..links[i] * 2 + 40]))
    && forall i, j :: 0 <= i < j < |links| ==> links[i] + 20 <= links[j]
  }

  /** A library known under its predicted address, or already given by its actual one. */
  predicate Resolvable(c: Chain, a: Address) {
    NonZero(a) && (a in c.byPredicted || a in c.byActual)
  }

  predicate LinksTo(creation: Hex, links: seq<nat>, i: int) {
    0 <= i < |links| && links[i] * 2 + 40 <= |creation|
  }

  predicate LinksResolve(c: Chain, creation: Hex, links: seq<nat>) {
    forall i :: 0 <= i < |links| && links[i] * 2 + 40 <= |creation| ==> Resolvable(c, Concrete(creation, links[i]))
  }

  function Image(c: Chain, a: Address): Address {
    if a in c.byPredicted then c.byPredicted[a].actual else a
  }

  /** Each link shows the actual address of its library; every other digit is as it was. */
  predicate Linked(c: Chain, creation: Hex, links: seq<nat>, r: Hex) {
    && |r| == |creation|
    && (forall i, k :: 0 <= i < |links| && 0 <= k < |creation| && InLink(links[i], k) && links[i] * 2 + 40 <= |creation| ==>
          r[k] == Image(c, Concrete(creation, links[i]))[k - links[i] * 2])
    && (forall k :: 0 <= k < |creation| && (forall i :: 0 <= i < |links| ==> !InLink(links[i], k)) ==> r[k] == creation[k])
  }

  /** Links are read from the code as it was compiled, in ascending order, and written one by one. */
  method RewriteLinkedLibraries(c: Chain, creation: Hex, template: string, links: seq<nat>) returns (r: Result<Hex, LinkError>)
    requires forall i, j :: 0 <= i < j < |links| ==> links[i] <= links[j]
    ensures r.Ok? <==> links != [] && LinksFit(creation, template, links) && LinksResolve(c, creation, links)
    ensures r.Ok? ==> Linked(c, creation, links, r.value)
    ensures r == Err(InvalidLinkRanges) ==> links == [] || !LinksFit(creation, template, links)
    ensures r == Err(ZeroLibrary) ==> exists i :: LinksTo(creation, links, i) && !NonZero(Concrete(creation, links[i]))
    ensures r == Err(UnresolvedLibrary) ==>
              exists i :: LinksTo(creation, links, i) && NonZero(Concrete(creation, links[i])) && !Resolvable(c, Concrete(creation, links[i]))
  {
    hide LinksFit, LinksResolve, Linked, IsPlaceholder;
    if links == [] {
      return Err(InvalidLinkRanges);
    }
    var previousEnd := 0;
    var rewritten := creation;
    NoLinks(c, creation, template);
    for n := 0 to |links|
      invariant LinksFit(creation, template, links[..n]) && LinksResolve(c, creation, links[..n])
      invariant previousEnd == if n == 0 then 0 else links[n - 1] + 20
      invariant Linked(c, creation, links[..n], rewritten)
    {
      var start := links[n];
      OneMoreLink(c, creation, template, links, n);
      LinkFits(creation, template, links, n);
      if start < previousEnd || start * 2 + 40 > |creation| || start * 2 + 40 > |template| {
        return Err(InvalidLinkRanges);
      }
      if !IsPlaceholder(template[start * 2..start * 2 + 40]) {
        return Err(InvalidLinkRanges);
      }
      var concrete := Concrete(creation, start);
      assert LinksTo(creation, links, n);
      if !NonZero(concrete) {
        return Err(ZeroLibrary);
      }
      LinkedLength(c, creation, links[..n], rewritten);
      if concrete in c.byPredicted {
        LinkWritten(c, creation, links[..n], start, rewritten);
        rewritten := rewritten[..start * 2] + c.byPredicted[concrete].actual + rewritten[start * 2 + 40..];
      } else if concrete !in c.byActual {
        return Err(UnresolvedLibrary);
      } else {
        LinkKept(c, creation, links[..n], start, rewritten);
      }
      previousEnd := start + 20;
    }
    assert links[..|links|] == links;
    return Ok(rewritten);
  }

  lemma NoLinks(c: Chain, creation: Hex, template: string)
    ensures LinksFit(creation, template, []) && LinksResolve(c, creation, []) && Linked(c, creation, [], creation)
  {
  }

  lemma LinkedLength(c: Chain, creation: Hex, links: seq<nat>, r: Hex)
    requires Linked(c, creation, links, r)
    ensures |r| == |creation|
  {
  }

  predicate LinkAccepted(c: Chain, creation: Hex, template: string, previousEnd: nat, start: nat) {
    && previousEnd <= start && start * 2 + 40 <= |creation| && start * 2 + 40 <= |template|
    && IsPlaceholder(template[start * 2..start * 2 + 40]) && Resolvable(c, Concrete(creation, start))
  }

  /** The checks of one link decide whether the links up to it are acceptable, and the whole list needs them. */
  lemma OneMoreLink(c: Chain, creation: Hex, template: string, links: seq<nat>, n: nat)
    requires n < |links| && LinksFit(creation, template, links[..n]) && LinksResolve(c, creation, links[..n])
    requires forall i, j :: 0 <= i < j < |links| ==> links[i] <= links[j]
    ensures links[..n + 1] == links[..n] + [links[n]]
    ensures var end := if n == 0 then 0 else links[n - 1] + 20;
            && (LinkAccepted(c, creation, template, end, links[n]) ==>
                  && LinksFit(creation, template, links[..n + 1]) && LinksResolve(c, creation, links[..n + 1])
                  && forall i :: 0 <= i < n ==> links[i] + 20 <= links[n])
            && (LinksFit(creation, template, links) && LinksResolve(c, creation, links) ==>
                  LinkAccepted(c, creation, template, end, links[n]))
  {
    hide IsPlaceholder, Resolvable;
    assert links[..n + 1] == links[..n] + [links[n]];
    if n > 0 {
      assert forall i :: 0 <= i < n ==> links[i] <= links[n - 1];
    }
  }

  /** Where the whole list fits, each link does, behind the one before it. */
  lemma LinkFits(creation: Hex, template: string, links: seq<nat>, n: nat)
    requires n < |links|
    ensures LinksFit(creation, template, links) ==>
              && (if n == 0 then 0 else links[n - 1] + 20) <= links[n]
              && links[n] * 2 + 40 <= |creation| && links[n] * 2 + 40 <= |template|
              && IsPlaceholder(template[links[n] * 2..links[n] * 2 + 40])
  {
    hide IsPlaceholder;
  }

  lemma LinkWritten(c: Chain, creation: Hex, links: seq<nat>, start: nat, before: Hex)
    requires Linked(c, creation, links, before) && start * 2 + 40 <= |creation|
    requires forall i :: 0 <= i < |links| ==> links[i] + 20 <= start
    requires Concrete(creation, start) in c.byPredicted
    ensures Linked(c, creation, links + [start],
                   before[..start * 2] + c.byPredicted[Concrete(creation, start)].actual + before[start * 2 + 40..])
  {
    var r := before[..start * 2] + c.byPredicted[Concrete(creation, start)].actual + before[start * 2 + 40..];
    forall k | 0 <= k < |creation| && (forall i :: 0 <= i < |links + [start]| ==> !InLink((links + [start])[i], k))
      ensures r[k] == creation[k]
    {
      assert !InLink((links + [start])[|links|], k);
      forall i | 0 <= i < |links| ensures !InLink(links[i], k) { assert (links + [start])[i] == links[i]; }
    }
  }

  lemma LinkKept(c: Chain, creation: Hex, links: seq<nat>, start: nat, before: Hex)
    requires Linked(c, creation, links, before) && start * 2 + 40 <= |creation|
    requires forall i :: 0 <= i < |links| ==> links[i] + 20 <= start
    requires Concrete(creation, start) !in c.byPredicted
    ensures Linked(c, creation, links + [start], before)
  {
    forall k | 0 <= k < |creation| && InLink(start, k)
      ensures before[k] == Image(c, Concrete(creation, start))[k - start * 2]
    {
      forall i | 0 <= i < |links| ensures !InLink(links[i], k) {}
    }
    forall k | 0 <= k < |creation| && (forall i :: 0 <= i < |links + [start]| ==> !InLink((links + [start])[i], k))
      ensures before[k] == creation[k]
    {
      forall i | 0 <= i < |links| ensures !InLink(links[i], k) { assert (links + [start])[i] == links[i]; }
    }
  }
}
