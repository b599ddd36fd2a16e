/** Storage keys of namespaced entries: the parts joined with slashes, empty namespaces left out. */
module StorageKeys {

  datatype Name = Name(primary: string, secondary: string, key: string)

  predicate Plain(part: string) {
    '/' !in part
  }

  predicate SlashFree(n: Name) {
    Plain(n.primary) && Plain(n.secondary) && Plain(n.key)
  }

  /** The names the node engine uses: slash-free parts, and no secondary without a primary. */
  predicate Regular(n: Name) {
    SlashFree(n) && (n.primary == "" ==> n.secondary == "")
  }

  function Segment(part: string): string {
    if part == "" then "" else part + "/"
  }

  function NamespacePrefix(primary: string, secondary: string): string {
    Segment(primary) + Segment(secondary)
  }

  function StorageKey(n: Name): (k: string)
    ensures n.primary != "" && n.secondary != "" ==> k == n.primary + "/" + n.secondary + "/" + n.key
    ensures n.primary != "" && n.secondary == "" ==> k == n.primary + "/" + n.key
    ensures n.primary == "" && n.secondary == "" ==> k == n.key
  {
    NamespacePrefix(n.primary, n.secondary) + n.key
  }

  lemma SplitAtSlash(a: string, x: string, b: string, y: string)
    requires Plain(a) && Plain(b) && a + "/" + x == b + "/" + y
    ensures a == b && x == y
  {
    var s, t := a + "/" + x, b + "/" + y;
    assert s[|a|] == '/' && t[|b|] == '/';
    assert forall i :: 0 <= i < |a| ==> s[i] == a[i];
    assert forall i :: 0 <= i < |b| ==> t[i] == b[i];
    assert |a| == |b|;
    assert a == s[..|a|] && b == t[..|b|];
    assert x == s[|a| + 1..] && y == t[|b| + 1..];
  }

  lemma HasSlash(a: string, x: string)
    ensures '/' in a + "/" + x
  {
    assert (a + "/" + x)[|a|] == '/';
  }

  /** `rest` is what follows the first segment of a key with a primary namespace. */
  function Rest(n: Name): string {
    Segment(n.secondary) + n.key
  }

  lemma RestInjective(n: Name, m: Name)
    requires Regular(n) && Regular(m) && Rest(n) == Rest(m)
    ensures n.secondary == m.secondary && n.key == m.key
  {
    assert n.secondary == "" ==> Rest(n) == n.key;
    assert m.secondary == "" ==> Rest(m) == m.key;
    if n.secondary != "" && m.secondary != "" {
      SplitAtSlash(n.secondary, n.key, m.secondary, m.key);
    } else if n.secondary != "" {
      HasSlash(n.secondary, n.key);
    } else if m.secondary != "" {
      HasSlash(m.secondary, m.key);
    }
  }

  lemma KeyShape(n: Name)
    requires Regular(n)
    ensures StorageKey(n) == if n.primary == "" then n.key else n.primary + "/" + Rest(n)
  {
    assert n.primary == "" ==> NamespacePrefix(n.primary, n.secondary) == "";
    assert n.primary != "" ==> Segment(n.primary) + Segment(n.secondary) + n.key == n.primary + "/" + Rest(n);
  }

  /** Joined keys identify their names. */
  lemma StorageKeyInjective(n: Name, m: Name)
    requires Regular(n) && Regular(m) && StorageKey(n) == StorageKey(m)
    ensures n == m
  {
    KeyShape(n);
    KeyShape(m);
    if n.primary != "" && m.primary != "" {
      SplitAtSlash(n.primary, Rest(n), m.primary, Rest(m));
      RestInjective(n, m);
    } else if n.primary != "" {
      HasSlash(n.primary, Rest(n));
    } else if m.primary != "" {
      HasSlash(m.primary, Rest(m));
    }
  }

  /** A secondary namespace without a primary counts as the primary. */
  function Moved(n: Name): Name {
    if n.primary == "" then Name(n.secondary, "", n.key) else n
  }

  lemma MovedKey(n: Name)
    requires SlashFree(n)
    ensures Regular(Moved(n)) && StorageKey(Moved(n)) == StorageKey(n)
  {
  }

  /** Two names with slash-free parts share a key exactly when they differ at most by that move. */
  lemma SameKeyExactly(n: Name, m: Name)
    requires SlashFree(n) && SlashFree(m)
    ensures StorageKey(n) == StorageKey(m) <==>
            || n == m
            || (n.key == m.key && n.primary == m.secondary && n.secondary == m.primary && (n.primary == "" || n.secondary == ""))
  {
    MovedKey(n);
    MovedKey(m);
    if StorageKey(n) == StorageKey(m) {
      StorageKeyInjective(Moved(n), Moved(m));
    }
  }

  /** Without the rule on secondary namespaces two names share a key. */
  lemma IrregularNamesCollide(p: string, k: string)
    requires p != "" && Plain(p) && Plain(k)
    ensures Name("", p, k) != Name(p, "", k) && StorageKey(Name("", p, k)) == StorageKey(Name(p, "", k))
  {
    SameKeyExactly(Name("", p, k), Name(p, "", k));
  }

  /** A key belongs to the listing of a namespace: it has the prefix and no further slash. */
  predicate Listed(storeKey: string, primary: string, secondary: string) {
    var prefix := NamespacePrefix(primary, secondary);
    prefix <= storeKey && Plain(storeKey[|prefix|..])
  }

  /** A regular name is listed in exactly its own namespace. */
  lemma ListedExactly(n: Name, primary: string, secondary: string)
    requires Regular(n) && Regular(Name(primary, secondary, ""))
    ensures Listed(StorageKey(n), primary, secondary) <==> n.primary == primary && n.secondary == secondary
    ensures Listed(StorageKey(n), primary, secondary) ==>
              StorageKey(n)[|NamespacePrefix(primary, secondary)|..] == n.key
  {
    var key, prefix := StorageKey(n), NamespacePrefix(primary, secondary);
    if n.primary == primary && n.secondary == secondary {
      assert key[|prefix|..] == n.key;
    }
    if Listed(key, primary, secondary) {
      var m := Name(primary, secondary, key[|prefix|..]);
      assert StorageKey(m) == key;
      StorageKeyInjective(n, m);
    }
  }
}
