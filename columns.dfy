/**
  Column resolution (`find_column` and the column mapping of
  `load_and_validate_data`): each of the four logical fields is found
  among the table's headers through a list of synonyms, compared
  case-insensitively against the trimmed headers.
 */
module Columns {
  import opened Wrappers
  import opened Text
  import opened Dicts

  /** `col.lower().strip()`: the form of a header that synonyms are compared with. */
  function HeaderKey(h: string): (k: string)
    ensures |k| <= |h|
    ensures forall i :: 0 <= i < |k| ==> !('A' <= k[i] <= 'Z')
    ensures k == [] || (!IsSpace(k[0]) && !IsSpace(k[|k| - 1]))
  {
    StrippedLower(h);
    StripEnds(Lower(h));
    Strip(Lower(h))
  }

  /** Stripping a lower-cased text leaves no upper-case ASCII letter. */
  lemma StrippedLower(h: string)
    ensures var k := Strip(Lower(h)); |k| <= |h| && forall i :: 0 <= i < |k| ==> !('A' <= k[i] <= 'Z')
  {
    StripKeeps(Lower(h), c => !('A' <= c <= 'Z'));
  }

  /** The keys of the headers, in header order. */
  function HeaderKeys(headers: seq<string>): (keys: seq<string>)
    ensures |keys| == |headers|
    ensures forall i :: 0 <= i < |headers| ==> keys[i] == HeaderKey(headers[i])
  {
    seq(|headers|, i requires 0 <= i < |headers| => HeaderKey(headers[i]))
  }

  /**
    `{col.lower().strip(): col for col in df.columns}`: a dictionary built
    left to right, so when two headers share a key the later one wins.
   */
  function HeaderIndex(headers: seq<string>): (index: map<string, string>)
    ensures forall k :: k in index ==> index[k] in headers
  {
    ZipMapValues(HeaderKeys(headers), headers);
    ZipMap(HeaderKeys(headers), headers)
  }

  /**
    The index holds exactly the keys of the headers, and each key leads to
    the last header having it.
   */
  lemma HeaderIndexSpec(headers: seq<string>, k: string)
    ensures k in HeaderIndex(headers) <==> exists i :: 0 <= i < |headers| && HeaderKey(headers[i]) == k
    ensures k in HeaderIndex(headers) ==>
      exists i :: 0 <= i < |headers| && HeaderIndex(headers)[k] == headers[i] && HeaderKey(headers[i]) == k
        && forall j :: i < j < |headers| ==> HeaderKey(headers[j]) != k
  {
    var keys := HeaderKeys(headers);
    ZipMapKeys(keys, headers, k);
    if k in keys {
      var i := LastIndexOf(keys, k);
      ZipMapLast(keys, headers, i);
      assert HeaderIndex(headers)[k] == headers[i] && HeaderKey(headers[i]) == k;
      assert forall j :: i < j < |headers| ==> HeaderKey(headers[j]) != k;
    } else {
      forall i | 0 <= i < |headers|
        ensures HeaderKey(headers[i]) != k
      {
        assert keys[i] == HeaderKey(headers[i]);
      }
    }
  }

  /** The last position of `k` in `keys`. */
  function LastIndexOf(keys: seq<string>, k: string): (i: nat)
    requires k in keys
    ensures i < |keys| && keys[i] == k
    ensures forall j :: i < j < |keys| ==> keys[j] != k
  {
    if keys[|keys| - 1] == k then |keys| - 1 else LastIndexOf(keys[..|keys| - 1], k)
  }

  /** Building the dictionary: one assignment per header, in header order. */
  method BuildIndex(headers: seq<string>) returns (index: map<string, string>)
    ensures index == HeaderIndex(headers)
  {
    index := map[];
    for i := 0 to |headers|
      invariant index == HeaderIndex(headers[..i])
    {
      assert HeaderKeys(headers[..i + 1])[..i] == HeaderKeys(headers[..i]);
      assert headers[..i + 1][..i] == headers[..i];
      index := index[HeaderKey(headers[i]) := headers[i]];
    }
    assert headers[..|headers|] == headers;
  }

  /** The header found for the first synonym, in list order, whose lower-cased form is a key of the index. */
  function FirstSynonym(index: map<string, string>, synonyms: seq<string>): Option<string>
  {
    if |synonyms| == 0 then None
    else if Lower(synonyms[0]) in index then Some(index[Lower(synonyms[0])])
    else FirstSynonym(index, synonyms[1..])
  }

  /** What `find_column(df, synonyms)` returns (the specification of FindColumn). */
  function ColumnFor(headers: seq<string>, synonyms: seq<string>): (r: Option<string>)
    ensures r.Some? ==> r.value in headers
    ensures |synonyms| == 0 ==> r == None
  {
    FirstSynonymSpec(HeaderIndex(headers), synonyms);
    FirstSynonym(HeaderIndex(headers), synonyms)
  }

  /** `find_column`: build the dictionary, then scan the synonyms with an early return. */
  method FindColumn(headers: seq<string>, synonyms: seq<string>) returns (r: Option<string>)
    ensures r == ColumnFor(headers, synonyms)
  {
    var index := BuildIndex(headers);
    var i := 0;
    while i < |synonyms|
      invariant 0 <= i <= |synonyms|
      invariant FirstSynonym(index, synonyms) == FirstSynonym(index, synonyms[i..])
    {
      var name := Lower(synonyms[i]);
      if name in index {
        return Some(index[name]);
      }
      i := i + 1;
    }
    return None;
  }

  /** Some header's key is the lower-cased synonym. */
  predicate Matches(headers: seq<string>, synonym: string)
  {
    exists i :: 0 <= i < |headers| && HeaderKey(headers[i]) == Lower(synonym)
  }

  /** FirstSynonym finds a value exactly when some synonym is a key, and then for the first such synonym. */
  lemma {:induction false} FirstSynonymSpec(index: map<string, string>, synonyms: seq<string>)
    ensures FirstSynonym(index, synonyms).None? <==> forall k :: 0 <= k < |synonyms| ==> Lower(synonyms[k]) !in index
    ensures FirstSynonym(index, synonyms).Some? ==>
      exists k :: 0 <= k < |synonyms| && Lower(synonyms[k]) in index
        && FirstSynonym(index, synonyms).value == index[Lower(synonyms[k])]
        && forall j :: 0 <= j < k ==> Lower(synonyms[j]) !in index
  {
    if |synonyms| > 0 {
      FirstSynonymSpec(index, synonyms[1..]);
      assert forall k :: 1 <= k < |synonyms| ==> synonyms[k] == synonyms[1..][k - 1];
      if Lower(synonyms[0]) !in index && FirstSynonym(index, synonyms).Some? {
        var k :| 0 <= k < |synonyms| - 1 && Lower(synonyms[1..][k]) in index
          && FirstSynonym(index, synonyms[1..]).value == index[Lower(synonyms[1..][k])]
          && forall j :: 0 <= j < k ==> Lower(synonyms[1..][j]) !in index;
        assert Lower(synonyms[k + 1]) in index;
      }
    }
  }

  /** `find_column` returns nothing exactly when no synonym matches any header. */
  lemma ColumnForNone(headers: seq<string>, synonyms: seq<string>)
    ensures ColumnFor(headers, synonyms).None? <==> NoMatch(headers, synonyms)
  {
    FirstSynonymSpec(HeaderIndex(headers), synonyms);
    forall k | 0 <= k < |synonyms|
      ensures Lower(synonyms[k]) in HeaderIndex(headers) <==> Matches(headers, synonyms[k])
    {
      MatchesIsKey(headers, synonyms[k]);
    }
  }

  /**
    Otherwise it returns a header whose key equals the lower-cased form of
    the first synonym (in list order) that matches, and among the headers
    with that key, the last one.
   */
  lemma ColumnForSome(headers: seq<string>, synonyms: seq<string>)
    requires ColumnFor(headers, synonyms).Some?
    ensures exists k, i :: FoundBy(headers, synonyms, ColumnFor(headers, synonyms).value, k, i)
  {
    var index := HeaderIndex(headers);
    FirstSynonymSpec(index, synonyms);
    var k :| 0 <= k < |synonyms| && Lower(synonyms[k]) in index
      && FirstSynonym(index, synonyms).value == index[Lower(synonyms[k])]
      && forall j :: 0 <= j < k ==> Lower(synonyms[j]) !in index;
    var key := Lower(synonyms[k]);
    HeaderIndexSpec(headers, key);
    var i :| 0 <= i < |headers| && index[key] == headers[i] && HeaderKey(headers[i]) == key
      && forall j :: i < j < |headers| ==> HeaderKey(headers[j]) != key;
    forall j | 0 <= j < k
      ensures !Matches(headers, synonyms[j])
    {
      MatchesIsKey(headers, synonyms[j]);
    }
    assert FoundBy(headers, synonyms, ColumnFor(headers, synonyms).value, k, i);
  }

  /**
    Header `headers[i]` is what synonym `k` finds: its key is the synonym
    lower-cased, no earlier synonym matches any header, and no later header
    has the same key.
   */
  predicate FoundBy(headers: seq<string>, synonyms: seq<string>, found: string, k: int, i: int)
  {
    0 <= k < |synonyms| && 0 <= i < |headers|
    && found == headers[i]
    && HeaderKey(headers[i]) == Lower(synonyms[k])
    && (forall j :: 0 <= j < k ==> !Matches(headers, synonyms[j]))
    && (forall j :: i < j < |headers| ==> HeaderKey(headers[j]) != Lower(synonyms[k]))
  }

  /** A synonym matches some header exactly when its lower-cased form is a key of the index. */
  lemma MatchesIsKey(headers: seq<string>, synonym: string)
    ensures Lower(synonym) in HeaderIndex(headers) <==> Matches(headers, synonym)
  {
    HeaderIndexSpec(headers, Lower(synonym));
  }

  // ---------------------------------------------------------------------
  // The four logical fields

  const CategorySynonyms: seq<string> := ["catégorie", "categorie", "category", "cat", "groupe", "group"]
  const TaskSynonyms: seq<string> := ["tâche", "tache", "task", "nom", "name", "activité", "activite"]
  const StartSynonyms: seq<string> := ["début", "debut", "start", "date_debut", "date début", "start_date"]
  const EndSynonyms: seq<string> := ["fin", "end", "date_fin", "date fin", "end_date", "échéance"]

  /** The header chosen for each logical field. */
  datatype ColumnMapping = ColumnMapping(category: string, task: string, start: string, end: string)

  /** The four keys of `col_mapping`, in its order. */
  datatype Field = Categorie | Tache | Debut | Fin

  /** The key as the error message spells it. */
  function FieldName(f: Field): string
  {
    match f
    case Categorie => "categorie"
    case Tache => "tache"
    case Debut => "debut"
    case Fin => "fin"
  }

  function Rank(f: Field): int
  {
    match f
    case Categorie => 0
    case Tache => 1
    case Debut => 2
    case Fin => 3
  }

  /** `[k for k, v in col_mapping.items() if v is None]`, in the mapping's fixed key order. */
  function Unresolved(headers: seq<string>): (m: seq<Field>)
    ensures |m| <= 4 && forall i, j :: 0 <= i < j < |m| ==> Rank(m[i]) < Rank(m[j])
    ensures Categorie in m <==> ColumnFor(headers, CategorySynonyms).None?
    ensures Tache in m <==> ColumnFor(headers, TaskSynonyms).None?
    ensures Debut in m <==> ColumnFor(headers, StartSynonyms).None?
    ensures Fin in m <==> ColumnFor(headers, EndSynonyms).None?
  {
    Pick(ColumnFor(headers, CategorySynonyms).None?, ColumnFor(headers, TaskSynonyms).None?,
         ColumnFor(headers, StartSynonyms).None?, ColumnFor(headers, EndSynonyms).None?)
  }

  /** The fields whose flag is set, in key order. */
  function Pick(c: bool, t: bool, d: bool, f: bool): (m: seq<Field>)
    ensures |m| <= 4 && forall i, j :: 0 <= i < j < |m| ==> Rank(m[i]) < Rank(m[j])
    ensures (Categorie in m <==> c) && (Tache in m <==> t) && (Debut in m <==> d) && (Fin in m <==> f)
  {
    (if c then [Categorie] else []) + (if t then [Tache] else [])
    + (if d then [Debut] else []) + (if f then [Fin] else [])
  }

  /** The column mapping, or the names of the fields no header resolves. */
  function Resolve(headers: seq<string>): (r: Result<ColumnMapping, seq<Field>>)
    ensures r.Failure? <==> |Unresolved(headers)| > 0
    ensures r.Failure? ==> r.error == Unresolved(headers)
    ensures r.Success? ==>
      ColumnFor(headers, CategorySynonyms) == Some(r.value.category)
      && ColumnFor(headers, TaskSynonyms) == Some(r.value.task)
      && ColumnFor(headers, StartSynonyms) == Some(r.value.start)
      && ColumnFor(headers, EndSynonyms) == Some(r.value.end)
  {
    var missing := Unresolved(headers);
    if |missing| > 0 then Failure(missing)
    else Success(ColumnMapping(
      ColumnFor(headers, CategorySynonyms).value, ColumnFor(headers, TaskSynonyms).value,
      ColumnFor(headers, StartSynonyms).value, ColumnFor(headers, EndSynonyms).value))
  }

  /** No synonym of the list matches any header. */
  predicate NoMatch(headers: seq<string>, synonyms: seq<string>)
  {
    forall k :: 0 <= k < |synonyms| ==> !Matches(headers, synonyms[k])
  }

  /** Resolution fails exactly when some field has no matching header. */
  lemma ResolveFailsExactly(headers: seq<string>)
    ensures Resolve(headers).Failure? <==>
      NoMatch(headers, CategorySynonyms) || NoMatch(headers, TaskSynonyms)
      || NoMatch(headers, StartSynonyms) || NoMatch(headers, EndSynonyms)
  {
    ColumnForNone(headers, CategorySynonyms);
    ColumnForNone(headers, TaskSynonyms);
    ColumnForNone(headers, StartSynonyms);
    ColumnForNone(headers, EndSynonyms);
  }

  /**
    The reported names are exactly the fields with no matching header, each
    once, in the order categorie, tache, debut, fin.
   */
  lemma UnresolvedNamesMissingFields(headers: seq<string>)
    ensures var m := Unresolved(headers);
      |m| <= 4
      && (forall i, j :: 0 <= i < j < |m| ==> Rank(m[i]) < Rank(m[j]))
      && (Categorie in m <==> NoMatch(headers, CategorySynonyms))
      && (Tache in m <==> NoMatch(headers, TaskSynonyms))
      && (Debut in m <==> NoMatch(headers, StartSynonyms))
      && (Fin in m <==> NoMatch(headers, EndSynonyms))
  {
    ColumnForNone(headers, CategorySynonyms);
    ColumnForNone(headers, TaskSynonyms);
    ColumnForNone(headers, StartSynonyms);
    ColumnForNone(headers, EndSynonyms);
  }
}
