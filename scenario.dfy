/**
 * `ScenarioService`: the cached dialogue nodes, keyed by id ignoring case;
 * lookup by id, the first node (by id, ignoring case) that has a keyword
 * occurring in a message, and replacing the cache with a fresh load.
 */
module Scenario {
  import opened Wrappers
  import opened Text
  import opened Ordering
  import opened CaseInsensitiveDictionary
  import opened Entities

  /** `Dictionary<string, DialogueNode>` under `OrdinalIgnoreCase`. */
  type NodeMap = Dict<DialogueNode>

  function IdKey(n: DialogueNode): seq<int> {
    FoldKey(n.id)
  }

  /** A keyword matches when it is not blank and its lower case occurs in the lower-cased message. */
  predicate KeywordMatches(keyword: string, normalized: string) {
    !IsBlank(keyword) && Contains(normalized, Lower(keyword))
  }

  predicate NodeMatches(node: DialogueNode, normalized: string) {
    exists k | 0 <= k < |node.keywords| :: KeywordMatches(node.keywords[k], normalized)
  }

  /** The inner loop of `FindByKeyword`: the node's keywords in list order, stopping at the first that matches. */
  method MatchesKeyword(node: DialogueNode, normalized: string) returns (found: bool)
    ensures found == NodeMatches(node, normalized)
  {
    for k := 0 to |node.keywords|
      invariant forall m | 0 <= m < k :: !KeywordMatches(node.keywords[m], normalized)
    {
      var keyword := node.keywords[k];
      if IsBlank(keyword) {
        continue;
      }
      var normalizedKeyword := Lower(keyword);
      if Contains(normalized, normalizedKeyword) {
        assert KeywordMatches(node.keywords[k], normalized);
        return true;
      }
    }
    return false;
  }

  /** The first node in `nodes` with a matching keyword. */
  function FirstMatch(nodes: seq<DialogueNode>, normalized: string): Option<DialogueNode> {
    if nodes == [] then None
    else if NodeMatches(nodes[0], normalized) then Some(nodes[0])
    else FirstMatch(nodes[1..], normalized)
  }

  /** `FindByKeyword` over `cache`: nothing for a blank message, else the first match with the nodes ordered by id ignoring case. */
  function KeywordSearch(cache: NodeMap, searchText: string): Option<DialogueNode> {
    if IsBlank(searchText) then None else FirstMatch(SortBy(Values(cache), IdKey), Lower(searchText))
  }

  /** `FirstMatch` finds a matching node with no matching node before it, and finds nothing only when no node matches. */
  lemma {:induction false} FirstMatchFacts(nodes: seq<DialogueNode>, normalized: string)
    ensures FirstMatch(nodes, normalized).None? <==> forall i | 0 <= i < |nodes| :: !NodeMatches(nodes[i], normalized)
    ensures FirstMatch(nodes, normalized).Some? ==>
      exists i | 0 <= i < |nodes| :: nodes[i] == FirstMatch(nodes, normalized).value && NodeMatches(nodes[i], normalized)
        && forall j | 0 <= j < i :: !NodeMatches(nodes[j], normalized)
  {
    if nodes != [] {
      FirstMatchFacts(nodes[1..], normalized);
      if !NodeMatches(nodes[0], normalized) {
        if FirstMatch(nodes[1..], normalized).Some? {
          var i :| 0 <= i < |nodes[1..]| && nodes[1..][i] == FirstMatch(nodes[1..], normalized).value
            && NodeMatches(nodes[1..][i], normalized) && forall j | 0 <= j < i :: !NodeMatches(nodes[1..][j], normalized);
          assert nodes[i + 1] == nodes[1..][i];
          assert forall j | 0 <= j < i + 1 :: !NodeMatches(nodes[j], normalized) by {
            forall j | 0 <= j < i + 1 ensures !NodeMatches(nodes[j], normalized) {
              if j > 0 {
                assert nodes[j] == nodes[1..][j - 1];
              }
            }
          }
        } else {
          forall i | 0 <= i < |nodes| ensures !NodeMatches(nodes[i], normalized) {
            if i > 0 {
              assert nodes[i] == nodes[1..][i - 1];
            }
          }
        }
      }
    }
  }

  /**
   * A blank message finds nothing. Otherwise what is found is a cached node
   * with a keyword occurring in the message, and no cached node with such a
   * keyword has a smaller id ignoring case; nothing is found only when no
   * cached node has such a keyword.
   */
  lemma KeywordSearchFacts(cache: NodeMap, searchText: string)
    ensures IsBlank(searchText) ==> KeywordSearch(cache, searchText) == None
    ensures !IsBlank(searchText) && KeywordSearch(cache, searchText).None? ==>
      forall n | n in Values(cache) :: !NodeMatches(n, Lower(searchText))
    ensures KeywordSearch(cache, searchText).Some? ==>
      var found := KeywordSearch(cache, searchText).value;
      && found in Values(cache)
      && NodeMatches(found, Lower(searchText))
      && forall n | n in Values(cache) && NodeMatches(n, Lower(searchText)) :: LexLe(IdKey(found), IdKey(n))
  {
    if !IsBlank(searchText) {
      var normalized := Lower(searchText);
      var nodes := SortBy(Values(cache), IdKey);
      SortByMembers(Values(cache), IdKey);
      FirstMatchFacts(nodes, normalized);
      if FirstMatch(nodes, normalized).Some? {
        var found := FirstMatch(nodes, normalized).value;
        var i :| 0 <= i < |nodes| && nodes[i] == found && NodeMatches(nodes[i], normalized)
          && forall j | 0 <= j < i :: !NodeMatches(nodes[j], normalized);
        forall n | n in Values(cache) && NodeMatches(n, normalized)
          ensures LexLe(IdKey(found), IdKey(n))
        {
          var j :| 0 <= j < |nodes| && nodes[j] == n;
          if j == i {
            LexLeTotal(IdKey(found), IdKey(n));
          }
        }
      } else {
        forall n | n in Values(cache) ensures !NodeMatches(n, normalized) {
          var j :| 0 <= j < |nodes| && nodes[j] == n;
        }
      }
    }
  }

  /** An item's id counts when it is present and not blank. */
  predicate HasKey<T>(idOf: T -> Option<string>, x: T, key: string) {
    idOf(x).Some? && !IsBlank(idOf(x).value) && EqualsIgnoreCase(idOf(x).value, key)
  }

  /**
   * The repositories' loading loop: every item with a non-blank id is
   * written to a case-insensitive map under that id, in order, and items
   * with no id or a blank one are skipped.
   */
  function Loaded<T>(items: seq<T>, idOf: T -> Option<string>, nodeOf: T -> DialogueNode): NodeMap {
    if items == [] then []
    else
      var data := Loaded(items[..|items| - 1], idOf, nodeOf);
      var x := items[|items| - 1];
      if idOf(x).None? || IsBlank(idOf(x).value) then data else Set(data, idOf(x).value, nodeOf(x))
  }

  /** Loading gives distinct keys. */
  lemma {:induction false} LoadedDistinct<T>(items: seq<T>, idOf: T -> Option<string>, nodeOf: T -> DialogueNode)
    ensures DistinctKeys(Loaded(items, idOf, nodeOf))
  {
    if items != [] {
      var x := items[|items| - 1];
      LoadedDistinct(items[..|items| - 1], idOf, nodeOf);
      if idOf(x).Some? && !IsBlank(idOf(x).value) {
        SetFacts(Loaded(items[..|items| - 1], idOf, nodeOf), idOf(x).value, nodeOf(x), idOf(x).value);
      }
    }
  }

  /** A key is bound to the node of the last item whose id equals it ignoring case: a later item overwrites an earlier one. */
  lemma {:induction false} LoadedLastWins<T>(items: seq<T>, idOf: T -> Option<string>, nodeOf: T -> DialogueNode, key: string, j: nat)
    requires j < |items| && HasKey(idOf, items[j], key)
    requires forall k | j < k < |items| :: !HasKey(idOf, items[k], key)
    ensures Get(Loaded(items, idOf, nodeOf), key) == Some(nodeOf(items[j]))
  {
    var before := items[..|items| - 1];
    var data := Loaded(before, idOf, nodeOf);
    var x := items[|items| - 1];
    if j == |items| - 1 {
      SetFacts(data, idOf(x).value, nodeOf(x), key);
    } else {
      assert before[j] == items[j];
      assert forall k | j < k < |before| :: before[k] == items[k];
      LoadedLastWins(before, idOf, nodeOf, key, j);
      assert !HasKey(idOf, x, key);
      if idOf(x).Some? && !IsBlank(idOf(x).value) {
        SetFacts(data, idOf(x).value, nodeOf(x), key);
      }
    }
  }

  /** A key that no item's id equals is bound to nothing. */
  lemma {:induction false} LoadedAbsent<T>(items: seq<T>, idOf: T -> Option<string>, nodeOf: T -> DialogueNode, key: string)
    requires forall j | 0 <= j < |items| :: !HasKey(idOf, items[j], key)
    ensures Get(Loaded(items, idOf, nodeOf), key) == None
  {
    if items != [] {
      var before := items[..|items| - 1];
      var data := Loaded(before, idOf, nodeOf);
      var x := items[|items| - 1];
      assert forall j | 0 <= j < |before| :: before[j] == items[j];
      LoadedAbsent(before, idOf, nodeOf, key);
      assert !HasKey(idOf, x, key);
      if idOf(x).Some? && !IsBlank(idOf(x).value) {
        SetFacts(data, idOf(x).value, nodeOf(x), key);
      }
    }
  }

  /** Every loaded node is the node of an item with a non-blank id. */
  lemma {:induction false} LoadedFrom<T>(items: seq<T>, idOf: T -> Option<string>, nodeOf: T -> DialogueNode)
    ensures forall n | n in Values(Loaded(items, idOf, nodeOf)) ::
      exists j | 0 <= j < |items| :: idOf(items[j]).Some? && !IsBlank(idOf(items[j]).value) && n == nodeOf(items[j])
  {
    if items != [] {
      var before := items[..|items| - 1];
      var data := Loaded(before, idOf, nodeOf);
      var x := items[|items| - 1];
      LoadedFrom(before, idOf, nodeOf);
      if idOf(x).None? || IsBlank(idOf(x).value) {
        forall n | n in Values(data)
          ensures exists j | 0 <= j < |items| :: idOf(items[j]).Some? && !IsBlank(idOf(items[j]).value) && n == nodeOf(items[j])
        {
          var j :| 0 <= j < |before| && idOf(before[j]).Some? && !IsBlank(idOf(before[j]).value) && n == nodeOf(before[j]);
          assert before[j] == items[j];
        }
      } else {
        var r := Set(data, idOf(x).value, nodeOf(x));
        forall n | n in Values(r)
          ensures exists j | 0 <= j < |items| :: idOf(items[j]).Some? && !IsBlank(idOf(items[j]).value) && n == nodeOf(items[j])
        {
          var i :| 0 <= i < |r| && Values(r)[i] == n;
          if n == nodeOf(x) {
            assert idOf(items[|items| - 1]).Some? && !IsBlank(idOf(items[|items| - 1]).value) && n == nodeOf(items[|items| - 1]);
          } else {
            assert i < |data| && Values(data)[i] == n;
            assert n in Values(data);
            var j :| 0 <= j < |before| && idOf(before[j]).Some? && !IsBlank(idOf(before[j]).value) && n == nodeOf(before[j]);
            assert before[j] == items[j];
          }
        }
      }
    }
  }

  class ScenarioService {
    var cache: NodeMap

    ghost predicate Valid()
      reads this
    {
      DistinctKeys(cache)
    }

    /** Starts with the repository's first load. */
    constructor(loaded: NodeMap)
      requires DistinctKeys(loaded)
      ensures Valid() && cache == loaded
    {
      cache := loaded;
    }

    /** `GetNode`: the cached node whose id equals `id` ignoring case. */
    function GetNode(id: string): (r: Option<DialogueNode>)
      reads this
      ensures r.Some? <==> exists j | 0 <= j < |cache| :: EqualsIgnoreCase(cache[j].0, id)
      ensures r.Some? ==> exists j | 0 <= j < |cache| :: EqualsIgnoreCase(cache[j].0, id) && cache[j].1 == r.value
    {
      Get(cache, id)
    }

    /** `FindByKeyword`: the nodes in id order, each keyword in list order, and the first hit returned. */
    method FindByKeyword(searchText: string) returns (r: Option<DialogueNode>)
      ensures r == KeywordSearch(cache, searchText)
    {
      if IsBlank(searchText) {
        return None;
      }
      var normalized := Lower(searchText);
      var nodes := SortBy(Values(cache), IdKey);
      for i := 0 to |nodes|
        invariant FirstMatch(nodes[i..], normalized) == FirstMatch(nodes, normalized)
      {
        var node := nodes[i];
        assert nodes[i..][1..] == nodes[i + 1..];
        var found := MatchesKeyword(node, normalized);
        if found {
          return Some(node);
        }
      }
      return None;
    }

    /**
     * `ReloadData`: a successful load replaces the cache; a load that throws,
     * or whose keys clash ignoring case when copied, leaves it as it was and
     * hands the error on.
     */
    method ReloadData(loaded: Result<NodeMap, Error>) returns (outcome: Result<(), Error>)
      requires Valid()
      modifies this
      ensures Valid()
      ensures loaded.Success? && DistinctKeys(loaded.value) ==> outcome == Success(()) && cache == loaded.value
      ensures loaded.Failure? ==> outcome == Failure(loaded.error) && cache == old(cache)
      ensures loaded.Success? && !DistinctKeys(loaded.value) ==> outcome.Failure? && cache == old(cache)
    {
      match loaded
      case Failure(e) =>
        outcome := Failure(e);
      case Success(data) =>
        if DistinctKeys(data) {
          cache := data;
          outcome := Success(());
        } else {
          outcome := Failure(Argument("An item with the same key has already been added."));
        }
    }
  }
}
