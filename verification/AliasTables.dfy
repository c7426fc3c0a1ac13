/**
 The two passes that turn configured alias lists into the tables the normaliser uses
 (src/common/event_profiles.py, src/consumer/contract_profile.py).
 */
module AliasTables {
  import opened Wrappers
  import opened Contract

  /** A configured value that should be a list of aliases. */
  datatype RawAliases = NotAList | AList(items: seq<Value>)

  datatype TableError = BadCanonical | BadList(canonical: string) | BadAlias(canonical: string)

  /** Keeps the first occurrence of every element. */
  function Dedup(s: seq<string>): seq<string> {
    if s == [] then []
    else
      var init, last := s[..|s| - 1], s[|s| - 1];
      if last in Dedup(init) then Dedup(init) else Dedup(init) + [last]
  }

  function WithCanonical(canonical: string, aliases: seq<string>): seq<string> {
    if canonical in aliases then aliases else [canonical] + aliases
  }

  /** `_expect_text`: text that is not blank, stripped. */
  function ExpectText(v: Value): Option<string> {
    if v.Text? && Strip(v.s) != "" then Some(Strip(v.s)) else None
  }

  function ExpectTexts(vs: seq<Value>): Option<seq<string>> {
    if vs == [] then Some([])
    else
      var init, last := ExpectTexts(vs[..|vs| - 1]), ExpectText(vs[|vs| - 1]);
      if init.None? || last.None? then None else Some(init.value + [last.value])
  }

  function CleanGroup(canonical: string, raw: RawAliases): Result<AliasGroup, TableError> {
    if raw.NotAList? || raw.items == [] then Err(BadList(canonical))
    else
      var texts := ExpectTexts(raw.items);
      if texts.None? then Err(BadAlias(canonical))
      else Ok(AliasGroup(canonical, WithCanonical(canonical, Dedup(texts.value))))
  }

  /** Assignment to a key of an insertion-ordered dictionary. */
  function Assign(table: seq<AliasGroup>, group: AliasGroup): seq<AliasGroup> {
    if table == [] then [group]
    else if table[0].canonical == group.canonical then [group] + table[1..]
    else [table[0]] + Assign(table[1..], group)
  }

  /** A group of a new key goes to the end; one of a known key takes the place of the group it had. */
  lemma {:induction false} AssignColumns(table: seq<AliasGroup>, group: AliasGroup)
    requires forall i, j | 0 <= i < j < |table| :: table[i].canonical != table[j].canonical
    ensures var known := exists i :: 0 <= i < |table| && table[i].canonical == group.canonical;
            var table' := Assign(table, group);
            && |table'| == |table| + (if known then 0 else 1) && (!known ==> table'[|table|] == group)
            && forall i | 0 <= i < |table| ::
                 table'[i] == if table[i].canonical == group.canonical then group else table[i]
  {
    if table != [] && table[0].canonical != group.canonical {
      AssignColumns(table[1..], group);
      if i :| 0 <= i < |table| && table[i].canonical == group.canonical {
        assert table[1..][i - 1] == table[i];
      }
      assert forall i | 1 <= i < |table| :: table[1..][i - 1] == table[i];
    }
  }

  function FirstPass(items: seq<(Value, RawAliases)>): Result<seq<AliasGroup>, TableError> {
    if items == [] then Ok([])
    else
      var (key, raw) := items[|items| - 1];
      var before := FirstPass(items[..|items| - 1]);
      if before.Err? then before
      else
        var canonical := ExpectText(key);
        if canonical.None? then Err(BadCanonical)
        else
          match CleanGroup(canonical.value, raw)
          case Err(e) => Err(e)
          case Ok(group) => Ok(Assign(before.value, group))
  }

  /** The inner loop of `_normalize_aliases`. */
  method DedupTexts(canonical: string, raw: RawAliases) returns (group: Result<AliasGroup, TableError>)
    ensures group == CleanGroup(canonical, raw)
  {
    if raw.NotAList? || raw.items == [] {
      return Err(BadList(canonical));
    }
    var deduped: seq<string> := [];
    for i := 0 to |raw.items|
      invariant ExpectTexts(raw.items[..i]).Some?
      invariant deduped == Dedup(ExpectTexts(raw.items[..i]).value)
    {
      assert raw.items[..i + 1][..i] == raw.items[..i];
      var alias := ExpectText(raw.items[i]);
      if alias.None? {
        TextsFail(raw.items, i);
        return Err(BadAlias(canonical));
      }
      var texts := ExpectTexts(raw.items[..i]).value;
      assert (texts + [alias.value])[..|texts|] == texts;
      if alias.value !in deduped {
        deduped := deduped + [alias.value];
      }
    }
    assert raw.items[..|raw.items|] == raw.items;
    if canonical !in deduped {
      deduped := [canonical] + deduped;
    }
    group := Ok(AliasGroup(canonical, deduped));
  }

  lemma {:induction false} TextsFail(vs: seq<Value>, i: nat)
    requires i < |vs| && ExpectText(vs[i]).None?
    ensures ExpectTexts(vs).None?
  {
    if i < |vs| - 1 {
      TextsFail(vs[..|vs| - 1], i);
    }
  }

  /** `_normalize_aliases`, for one topic kind. */
  method NormalizeAliases(items: seq<(Value, RawAliases)>) returns (table: Result<seq<AliasGroup>, TableError>)
    ensures table == FirstPass(items)
  {
    var groups: seq<AliasGroup> := [];
    for i := 0 to |items|
      invariant FirstPass(items[..i]) == Ok(groups)
    {
      assert items[..i + 1][..i] == items[..i];
      var canonical := ExpectText(items[i].0);
      if canonical.None? {
        PassFails(items, i + 1);
        return Err(BadCanonical);
      }
      var group := DedupTexts(canonical.value, items[i].1);
      if group.Err? {
        PassFails(items, i + 1);
        return Err(group.error);
      }
      groups := Assign(groups, group.value);
    }
    assert items[..|items|] == items;
    table := Ok(groups);
  }

  lemma {:induction false} PassFails(items: seq<(Value, RawAliases)>, n: nat)
    requires n <= |items| && FirstPass(items[..n]).Err?
    ensures FirstPass(items) == FirstPass(items[..n])
    decreases |items|
  {
    if n == |items| {
      assert items[..n] == items;
    } else {
      assert items[..|items| - 1][..n] == items[..n];
      PassFails(items[..|items| - 1], n);
    }
  }

  // ---------------------------------------------------------------- the tables are canonical

  ghost predicate NoRepeats(s: seq<string>) {
    forall i, j | 0 <= i < j < |s| :: s[i] != s[j]
  }

  predicate Clean(s: string) { s != "" && Stripped(s) }

  ghost predicate CanonicalGroup(group: AliasGroup) {
    && Clean(group.canonical) && group.canonical in group.aliases && NoRepeats(group.aliases)
    && forall alias | alias in group.aliases :: Clean(alias)
  }

  ghost predicate CanonicalTable(table: seq<AliasGroup>) {
    && (forall group | group in table :: CanonicalGroup(group))
    && forall i, j | 0 <= i < j < |table| :: table[i].canonical != table[j].canonical
  }

  /** `i` is where `x` occurs first. */
  ghost predicate FirstAt(s: seq<string>, x: string, i: int) {
    0 <= i < |s| && s[i] == x && forall j | 0 <= j < i :: s[j] != x
  }

  /** Deduplication keeps exactly the elements, once each, in the order of their first occurrence. */
  lemma {:induction false} DedupKeepsFirst(s: seq<string>)
    ensures NoRepeats(Dedup(s)) && forall x :: x in Dedup(s) <==> x in s
    ensures forall a, b, i, j | 0 <= a < b < |Dedup(s)| && FirstAt(s, Dedup(s)[a], i) && FirstAt(s, Dedup(s)[b], j) ::
              i < j
  {
    if s != [] {
      var init, last := s[..|s| - 1], s[|s| - 1];
      DedupKeepsFirst(init);
      assert s == init + [last];
      forall a, b, i, j | 0 <= a < b < |Dedup(s)| && FirstAt(s, Dedup(s)[a], i) && FirstAt(s, Dedup(s)[b], j)
        ensures i < j
      {
        FirstAtInit(init, last, Dedup(s)[a], i);
        if b < |Dedup(init)| {
          FirstAtInit(init, last, Dedup(s)[b], j);
        }
      }
    }
  }

  lemma {:induction false} TextsExpected(vs: seq<Value>)
    ensures ExpectTexts(vs).Some? <==> forall i | 0 <= i < |vs| :: vs[i].Text? && Strip(vs[i].s) != ""
    ensures ExpectTexts(vs).Some? ==>
              var texts := ExpectTexts(vs).value;
              |texts| == |vs| && forall i | 0 <= i < |vs| :: texts[i] == Strip(vs[i].s)
  {
    if vs != [] {
      TextsExpected(vs[..|vs| - 1]);
      assert forall i | 0 <= i < |vs| - 1 :: vs[..|vs| - 1][i] == vs[i];
    }
  }

  /** `aliases` lists the configured texts, stripped, each once and in the order in which they first occur. */
  ghost predicate ListsOnce(aliases: seq<string>, items: seq<Value>) {
    && NoRepeats(aliases)
    && (forall i | 0 <= i < |items| :: items[i].Text? && items[i].s != "" && Strip(items[i].s) in aliases)
    && (forall a | 0 <= a < |aliases| :: Configured(items, aliases[a]))
    && forall a, b | 0 <= a < b < |aliases| :: Earlier(items, aliases[a], aliases[b])
  }

  ghost predicate Configured(items: seq<Value>, text: string) { exists i :: FirstItem(items, text, i) }

  ghost predicate Earlier(items: seq<Value>, text: string, other: string) {
    forall i, j | FirstItem(items, text, i) && FirstItem(items, other, j) :: i < j
  }

  /** The item at `i` is the first that is this text, stripped. */
  ghost predicate FirstItem(items: seq<Value>, text: string, i: int) {
    && 0 <= i < |items| && items[i].Text? && Strip(items[i].s) == text
    && forall j | 0 <= j < i :: items[j].Text? && Strip(items[j].s) != text
  }

  /** One configured group: a list that is missing or empty and an item that is no text, or a blank one, are
      rejected; otherwise the aliases are the items, with the canonical key in front if they lack it. */
  lemma GroupColumns(canonical: string, raw: RawAliases)
    ensures var group := CleanGroup(canonical, raw);
            && (group == Err(BadList(canonical)) <==> raw.NotAList? || raw.items == [])
            && (group == Err(BadAlias(canonical))
                <==> raw.AList? && exists i ::
                  0 <= i < |raw.items| && (!raw.items[i].Text? || Strip(raw.items[i].s) == ""))
            && (group.Ok? ==>
                  var aliases := group.value.aliases;
                  && group.value.canonical == canonical && raw.AList?
                  && (|| (canonical in aliases && ListsOnce(aliases, raw.items))
                      || (aliases != [] && aliases[0] == canonical && canonical !in aliases[1..]
                          && ListsOnce(aliases[1..], raw.items))))
  {
    if raw.AList? {
      TextsExpected(raw.items);
      if ExpectTexts(raw.items).Some? && raw.items != [] {
        var texts := ExpectTexts(raw.items).value;
        DedupKeepsFirst(texts);
        DedupLists(raw.items, texts);
        if canonical !in Dedup(texts) {
          assert ([canonical] + Dedup(texts))[1..] == Dedup(texts);
        }
      }
    }
  }

  lemma FirstItemIff(items: seq<Value>, texts: seq<string>, x: string, i: int)
    requires TextsOf(items, texts)
    ensures FirstItem(items, x, i) <==> FirstAt(texts, x, i)
  {}

  lemma {:induction false} OccursFirst(texts: seq<string>, x: string) returns (i: nat)
    requires x in texts
    ensures FirstAt(texts, x, i)
  {
    if texts[0] == x {
      i := 0;
    } else {
      i := OccursFirst(texts[1..], x);
      i := i + 1;
      assert forall j | 1 <= j < |texts| :: texts[j] == texts[1..][j - 1];
    }
  }

  /** The texts are those of the items. */
  ghost predicate TextsOf(items: seq<Value>, texts: seq<string>) {
    |texts| == |items| && forall i | 0 <= i < |items| ::
      items[i].Text? && texts[i] != "" && texts[i] == Strip(items[i].s)
  }

  lemma EachFirst(items: seq<Value>, texts: seq<string>, a: int)
    requires TextsOf(items, texts) && 0 <= a < |Dedup(texts)|
    ensures Configured(items, Dedup(texts)[a])
  {
    DedupKeepsFirst(texts);
    assert Dedup(texts)[a] in texts;
    var i := OccursFirst(texts, Dedup(texts)[a]);
    FirstItemIff(items, texts, Dedup(texts)[a], i);
  }

  lemma InFirstOrder(items: seq<Value>, texts: seq<string>, a: int, b: int)
    requires TextsOf(items, texts) && 0 <= a < b < |Dedup(texts)|
    ensures Earlier(items, Dedup(texts)[a], Dedup(texts)[b])
  {
    DedupKeepsFirst(texts);
    forall i, j | FirstItem(items, Dedup(texts)[a], i) && FirstItem(items, Dedup(texts)[b], j)
      ensures i < j
    {
      FirstItemIff(items, texts, Dedup(texts)[a], i);
      FirstItemIff(items, texts, Dedup(texts)[b], j);
    }
  }

  lemma EachListed(items: seq<Value>, texts: seq<string>, i: int)
    requires TextsOf(items, texts) && 0 <= i < |items|
    ensures items[i].Text? && items[i].s != "" && Strip(items[i].s) in Dedup(texts)
  {
    DedupKeepsFirst(texts);
    assert texts[i] in texts;
  }

  lemma DedupLists(items: seq<Value>, texts: seq<string>)
    requires TextsOf(items, texts)
    ensures ListsOnce(Dedup(texts), items)
  {
    assert NoRepeats(Dedup(texts)) by {
      DedupKeepsFirst(texts);
    }
    forall a | 0 <= a < |Dedup(texts)|
      ensures Configured(items, Dedup(texts)[a])
    {
      EachFirst(items, texts, a);
    }
    forall i | 0 <= i < |items|
      ensures items[i].Text? && items[i].s != "" && Strip(items[i].s) in Dedup(texts)
    {
      EachListed(items, texts, i);
    }
    forall a, b | 0 <= a < b < |Dedup(texts)|
      ensures Earlier(items, Dedup(texts)[a], Dedup(texts)[b])
    {
      InFirstOrder(items, texts, a, b);
    }
  }

  lemma FirstAtInit(init: seq<string>, last: string, x: string, i: int)
    requires FirstAt(init + [last], x, i)
    ensures x in init ==> FirstAt(init, x, i)
  {
    if x in init {
      var k :| 0 <= k < |init| && init[k] == x;
      assert (init + [last])[k] == x;
      assert forall j | 0 <= j < i :: (init + [last])[j] == init[j];
    }
  }

  lemma {:induction false} TextsAreClean(vs: seq<Value>)
    requires ExpectTexts(vs).Some?
    ensures forall x | x in ExpectTexts(vs).value :: Clean(x)
  {
    if vs != [] {
      TextsAreClean(vs[..|vs| - 1]);
    }
  }

  lemma CleanGroupIsCanonical(canonical: string, raw: RawAliases)
    requires Clean(canonical) && CleanGroup(canonical, raw).Ok?
    ensures CanonicalGroup(CleanGroup(canonical, raw).value) && CleanGroup(canonical, raw).value.canonical == canonical
  {
    TextsAreClean(raw.items);
    DedupKeepsFirst(ExpectTexts(raw.items).value);
  }

  lemma {:induction false} AssignIsCanonical(table: seq<AliasGroup>, group: AliasGroup)
    requires CanonicalTable(table) && CanonicalGroup(group)
    ensures CanonicalTable(Assign(table, group))
    ensures forall g | g in Assign(table, group) :: g == group || (g in table && g.canonical != group.canonical)
  {
    if table != [] && table[0].canonical != group.canonical {
      AssignIsCanonical(table[1..], group);
      assert forall g | g in table[1..] :: g in table && g.canonical != table[0].canonical;
    }
  }

  /** The first pass yields, per canonical key, a duplicate-free list of stripped names that
      contains the key itself; the canonical keys are distinct. */
  lemma {:induction false} FirstPassIsCanonical(items: seq<(Value, RawAliases)>)
    requires FirstPass(items).Ok?
    ensures CanonicalTable(FirstPass(items).value)
  {
    if items != [] {
      var init := items[..|items| - 1];
      var (key, raw) := items[|items| - 1];
      FirstPassIsCanonical(init);
      CleanGroupIsCanonical(ExpectText(key).value, raw);
      AssignIsCanonical(FirstPass(init).value, CleanGroup(ExpectText(key).value, raw).value);
    }
  }

  // ---------------------------------------------------------------- the second pass

  /** `_to_alias_map` on the profile that was loaded: strips, rejects blanks and deduplicates again. */
  function SecondPass(table: seq<AliasGroup>): Result<seq<AliasGroup>, TableError> {
    if table == [] then Ok([])
    else
      var before, group := SecondPass(table[..|table| - 1]), table[|table| - 1];
      if before.Err? then before
      else
        var canonical := Strip(group.canonical);
        if canonical == "" then Err(BadCanonical)
        else if exists alias :: alias in group.aliases && Strip(alias) == "" then Err(BadAlias(canonical))
        else Ok(Assign(before.value, AliasGroup(canonical, WithCanonical(canonical, Dedup(StripAll(group.aliases))))))
  }

  function StripAll(s: seq<string>): seq<string> {
    if s == [] then [] else StripAll(s[..|s| - 1]) + [Strip(s[|s| - 1])]
  }

  lemma StripAllNext(aliases: seq<string>, j: nat)
    requires j < |aliases|
    ensures StripAll(aliases[..j + 1]) == StripAll(aliases[..j]) + [Strip(aliases[j])]
  {
    assert aliases[..j + 1][..j] == aliases[..j];
  }

  lemma DedupNext(s: seq<string>, last: string)
    ensures Dedup(s + [last]) == if last in Dedup(s) then Dedup(s) else Dedup(s) + [last]
  {
    assert (s + [last])[..|s|] == s;
  }

  lemma {:induction false} StripAllHas(aliases: seq<string>, n: nat)
    requires n <= |aliases|
    ensures "" in StripAll(aliases[..n]) <==> exists k :: 0 <= k < n && Strip(aliases[k]) == ""
  {
    if n > 0 {
      StripAllHas(aliases, n - 1);
      StripAllNext(aliases, n - 1);
    }
  }

  ghost predicate HasBlank(aliases: seq<string>) { exists alias :: alias in aliases && Strip(alias) == "" }

  lemma HasBlankAt(aliases: seq<string>, j: nat)
    requires j < |aliases| && Strip(aliases[j]) == ""
    ensures HasBlank(aliases)
  {
    assert aliases[j] in aliases;
  }

  lemma NoBlank(aliases: seq<string>)
    requires "" !in StripAll(aliases)
    ensures !HasBlank(aliases)
  {
    assert aliases[..|aliases|] == aliases;
    StripAllHas(aliases, |aliases|);
  }

  /** The inner loop of `_to_alias_map`; `None` when an alias is blank. */
  method StripAliases(aliases: seq<string>) returns (values: Option<seq<string>>)
    ensures values.None? <==> HasBlank(aliases)
    ensures values.Some? ==> values.value == Dedup(StripAll(aliases))
  {
    var kept: seq<string> := [];
    ghost var stripped: seq<string> := [];
    for j := 0 to |aliases|
      invariant stripped == StripAll(aliases[..j]) && "" !in stripped
      invariant kept == Dedup(stripped)
    {
      var alias := Strip(aliases[j]);
      if alias == "" {
        HasBlankAt(aliases, j);
        return None;
      }
      StripAllNext(aliases, j);
      DedupNext(stripped, alias);
      stripped := stripped + [alias];
      if alias !in kept {
        kept := kept + [alias];
      }
    }
    assert aliases[..|aliases|] == aliases;
    NoBlank(aliases);
    values := Some(kept);
  }

  /** `_to_alias_map`. */
  method ToAliasMap(table: seq<AliasGroup>) returns (canonicalMap: Result<seq<AliasGroup>, TableError>)
    ensures canonicalMap == SecondPass(table)
  {
    var groups: seq<AliasGroup> := [];
    for i := 0 to |table|
      invariant SecondPass(table[..i]) == Ok(groups)
    {
      assert table[..i + 1][..i] == table[..i];
      var canonical := Strip(table[i].canonical);
      if canonical == "" {
        SecondPassFails(table, i + 1);
        return Err(BadCanonical);
      }
      var values := StripAliases(table[i].aliases);
      if values.None? {
        SecondPassFails(table, i + 1);
        return Err(BadAlias(canonical));
      }
      groups := Assign(groups, AliasGroup(canonical, WithCanonical(canonical, values.value)));
    }
    assert table[..|table|] == table;
    canonicalMap := Ok(groups);
  }

  lemma {:induction false} SecondPassFails(table: seq<AliasGroup>, n: nat)
    requires n <= |table| && SecondPass(table[..n]).Err?
    ensures SecondPass(table) == SecondPass(table[..n])
    decreases |table|
  {
    if n == |table| {
      assert table[..n] == table;
    } else {
      assert table[..|table| - 1][..n] == table[..n];
      SecondPassFails(table[..|table| - 1], n);
    }
  }

  lemma {:induction false} CleanListUnchanged(s: seq<string>)
    requires NoRepeats(s) && forall x | x in s :: Clean(x)
    ensures StripAll(s) == s && Dedup(s) == s
  {
    if s != [] {
      var init := s[..|s| - 1];
      assert s == init + [s[|s| - 1]] && s[|s| - 1] !in init && s[|s| - 1] in s;
      CleanListUnchanged(init);
    }
  }

  lemma {:induction false} AssignAppends(table: seq<AliasGroup>, group: AliasGroup)
    requires forall g | g in table :: g.canonical != group.canonical
    ensures Assign(table, group) == table + [group]
  {
    if table != [] {
      assert table[0] in table;
      AssignAppends(table[1..], group);
    }
  }

  /** The second pass changes nothing in a table the first pass produced. */
  lemma {:induction false} SecondPassIsIdentity(table: seq<AliasGroup>)
    requires CanonicalTable(table)
    ensures SecondPass(table) == Ok(table)
  {
    if table != [] {
      var init, group := table[..|table| - 1], table[|table| - 1];
      assert table == init + [group] && group in table && CanonicalGroup(group);
      SecondPassIsIdentity(init);
      CleanListUnchanged(group.aliases);
      AssignAppends(init, group);
      assert AliasGroup(group.canonical, WithCanonical(group.canonical, group.aliases)) == group;
    }
  }

  /** The two passes together are the first pass. */
  lemma PassesCompose(items: seq<(Value, RawAliases)>)
    requires FirstPass(items).Ok?
    ensures SecondPass(FirstPass(items).value) == FirstPass(items)
  {
    FirstPassIsCanonical(items);
    SecondPassIsIdentity(FirstPass(items).value);
  }
}
