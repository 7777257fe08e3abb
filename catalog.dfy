/** The message catalog of the application: three supported locales, each
    with a translation tree of display strings, and the structural invariant
    that all three trees share one key structure and hold no empty string. */
module Catalog {
  import opened Wrappers

  /** A supported display language. */
  datatype Locale = En | Zh | Ja {
    /** The code under which the locale's tree is stored in the catalog. */
    function Code(): (c: string)
      ensures |c| == 2
    {
      match this
      case En => "en"
      case Zh => "zh"
      case Ja => "ja"
    }
  }

  /** A translation tree: a display string, or a group of named subtrees. */
  datatype Tree = Leaf(text: string) | Node(children: map<string, Tree>)

  /** Two trees have the same key structure: leaves face leaves, and groups
      face groups with the same keys whose subtrees again match. */
  predicate SameShape(a: Tree, b: Tree)
  {
    match (a, b)
    case (Leaf(_), Leaf(_)) => true
    case (Node(m), Node(n)) => m.Keys == n.Keys && forall k :: k in m ==> SameShape(m[k], n[k])
    case _ => false
  }

  /** Every display string reachable in the tree is non-empty. */
  predicate NonEmptyLeaves(t: Tree)
  {
    match t
    case Leaf(s) => s != ""
    case Node(m) => forall k :: k in m ==> NonEmptyLeaves(m[k])
  }

  /** Follows a key path (`["result", "title"]` for `result.title`) down
      the tree; a path resolves only when it ends exactly on a leaf. */
  function Lookup(t: Tree, path: seq<string>): (r: Option<string>)
    ensures path == [] ==> (r.Some? <==> t.Leaf?)
    ensures r.Some? && path != [] ==> t.Node? && path[0] in t.children
  {
    if path == [] then
      (if t.Leaf? then Some(t.text) else None)
    else if t.Node? && path[0] in t.children then
      Lookup(t.children[path[0]], path[1..])
    else
      None
  }

  // ---------------------------------------------------------------------
  // The catalog constant

  const EnMessages: Tree := Node(map[
    "title" := Leaf("Tech Stack Generator"),
    "frontend" := Leaf("Frontend"),
    "backend" := Leaf("Backend"),
    "database" := Leaf("Database"),
    "start" := Leaf("Start"),
    "spinning" := Leaf("Spinning..."),
    "result" := Node(map[
      "title" := Leaf("Your Perfect Stack!"),
      "summary" := Leaf("🎉 Congratulations! Here's your destiny stack:"),
      "frontend" := Leaf("Rock the frontend with"),
      "backend" := Leaf("Power your backend using"),
      "database" := Leaf("Store your data in"),
      "footer" := Leaf("Time to start coding! This stack is waiting for you! 🚀")
    ]),
    "categories" := Node(map[
      "select" := Leaf("Select Categories"),
      "description" := Leaf("What components do you need?")
    ])
  ])

  const ZhMessages: Tree := Node(map[
    "title" := Leaf("技术栈生成器"),
    "frontend" := Leaf("前端"),
    "backend" := Leaf("后端"),
    "database" := Leaf("数据库"),
    "start" := Leaf("开始选择"),
    "spinning" := Leaf("选择中..."),
    "result" := Node(map[
      "title" := Leaf("你的完美技术栈！"),
      "summary" := Leaf("🎉 恭喜！这就是命中注定的技术组合："),
      "frontend" := Leaf("用强大的"),
      "backend" := Leaf("采用炫酷的"),
      "database" := Leaf("数据当然用"),
      "footer" := Leaf("快来开始编码吧！这个技术栈已经等不及要与你合作了！🚀")
    ]),
    "categories" := Node(map[
      "select" := Leaf("选择组件"),
      "description" := Leaf("你需要哪些组件？")
    ])
  ])

  const JaMessages: Tree := Node(map[
    "title" := Leaf("技術スタックジェネレーター"),
    "frontend" := Leaf("フロントエンド"),
    "backend" := Leaf("バックエンド"),
    "database" := Leaf("データベース"),
    "start" := Leaf("開始"),
    "spinning" := Leaf("選択中..."),
    "result" := Node(map[
      "title" := Leaf("パーフェクトな技術スタック！"),
      "summary" := Leaf("🎉 おめでとう！運命の技術スタックの組み合わせ："),
      "frontend" := Leaf("フロントエンドには素晴らしい"),
      "backend" := Leaf("バックエンドには強力な"),
      "database" := Leaf("データベースには信頼性の高い"),
      "footer" := Leaf("さあ、コーディングを始めましょう！この技術スタックがあなたを待っています！🚀")
    ]),
    "categories" := Node(map[
      "select" := Leaf("カテゴリー選択"),
      "description" := Leaf("必要なコンポーネントは？")
    ])
  ])

  /** The catalog handed to the localization provider, keyed by locale code. */
  const Messages: map<string, Tree> := map["en" := EnMessages, "zh" := ZhMessages, "ja" := JaMessages]

  /** The ungrouped keys of every tree. */
  const FlatKeys: set<string> := {"title", "frontend", "backend", "database", "start", "spinning"}

  /** The keys of the `result` group. */
  const ResultKeys: set<string> := {"title", "summary", "frontend", "backend", "database", "footer"}

  /** The keys of the `categories` group. */
  const CategoryKeys: set<string> := {"select", "description"}

  /** A group whose keys are exactly `keys`, each holding a display string. */
  predicate LeafGroup(t: Tree, keys: set<string>)
  {
    t.Node? && t.children.Keys == keys && forall k :: k in keys ==> t.children[k].Leaf?
  }

  /** The layout every locale's tree is meant to have: the flat keys as
      strings, plus the `result` and `categories` groups. */
  predicate HasLayout(t: Tree)
  {
    && t.Node?
    && t.children.Keys == FlatKeys + {"result", "categories"}
    && (forall k :: k in FlatKeys ==> t.children[k].Leaf?)
    && LeafGroup(t.children["result"], ResultKeys)
    && LeafGroup(t.children["categories"], CategoryKeys)
  }

  /** The key paths that the layout promises to resolve. */
  predicate Required(path: seq<string>)
  {
    || (|path| == 1 && path[0] in FlatKeys)
    || (|path| == 2 && path[0] == "result" && path[1] in ResultKeys)
    || (|path| == 2 && path[0] == "categories" && path[1] in CategoryKeys)
  }

  // ---------------------------------------------------------------------
  // SameShape is an equivalence

  lemma {:induction false} SameShapeReflexive(a: Tree)
    ensures SameShape(a, a)
  {
    match a
    case Leaf(_) =>
    case Node(m) =>
      forall k | k in m ensures SameShape(m[k], m[k]) {
        SameShapeReflexive(m[k]);
      }
  }

  lemma {:induction false} SameShapeSymmetric(a: Tree, b: Tree)
    requires SameShape(a, b)
    ensures SameShape(b, a)
  {
    match (a, b)
    case (Leaf(_), Leaf(_)) =>
    case (Node(m), Node(n)) =>
      forall k | k in n ensures SameShape(n[k], m[k]) {
        SameShapeSymmetric(m[k], n[k]);
      }
  }

  lemma {:induction false} SameShapeTransitive(a: Tree, b: Tree, c: Tree)
    requires SameShape(a, b) && SameShape(b, c)
    ensures SameShape(a, c)
  {
    match (a, b, c)
    case (Leaf(_), Leaf(_), Leaf(_)) =>
    case (Node(m), Node(n), Node(o)) =>
      forall k | k in m ensures SameShape(m[k], o[k]) {
        SameShapeTransitive(m[k], n[k], o[k]);
      }
  }

  /** Trees of the same shape resolve exactly the same key paths, so a key
      that exists in one locale exists in every locale of that shape. */
  lemma {:induction false} SameShapeLookup(a: Tree, b: Tree, path: seq<string>)
    requires SameShape(a, b)
    ensures Lookup(a, path).Some? <==> Lookup(b, path).Some?
  {
    if path != [] && a.Node? && path[0] in a.children {
      SameShapeLookup(a.children[path[0]], b.children[path[0]], path[1..]);
    }
  }

  /** A resolved string of a tree without empty leaves is non-empty. */
  lemma {:induction false} NonEmptyLookup(t: Tree, path: seq<string>)
    requires NonEmptyLeaves(t) && Lookup(t, path).Some?
    ensures Lookup(t, path).value != ""
  {
    if path != [] {
      NonEmptyLookup(t.children[path[0]], path[1..]);
    }
  }

  // ---------------------------------------------------------------------
  // The catalog invariant

  /** The Chinese tree has the key structure of the English one. */
  lemma ZhMatchesEn()
    ensures SameShape(EnMessages, ZhMessages)
  {
    var en, zh := EnMessages.children, ZhMessages.children;
    assert SameShape(en["result"], zh["result"]);
    assert SameShape(en["categories"], zh["categories"]);
    assert en.Keys == zh.Keys;
  }

  /** The Japanese tree has the key structure of the English one. */
  lemma JaMatchesEn()
    ensures SameShape(EnMessages, JaMessages)
  {
    var en, ja := EnMessages.children, JaMessages.children;
    assert SameShape(en["result"], ja["result"]);
    assert SameShape(en["categories"], ja["categories"]);
    assert en.Keys == ja.Keys;
  }

  /** The catalog holds exactly the three supported locales. */
  lemma CatalogLocales()
    ensures Messages.Keys == {En.Code(), Zh.Code(), Ja.Code()}
    ensures forall code :: code in Messages <==> exists l: Locale :: l.Code() == code
  {
    assert Messages.Keys == {"en", "zh", "ja"};
    forall code | code in Messages ensures exists l: Locale :: l.Code() == code {
      if code == "en" { assert En.Code() == code; }
      else if code == "zh" { assert Zh.Code() == code; }
      else { assert Ja.Code() == code; }
    }
  }

  /** No display string of the English tree is empty. */
  lemma EnNonEmpty()
    ensures NonEmptyLeaves(EnMessages)
  {
  }

  /** No display string of the Chinese tree is empty. */
  lemma ZhNonEmpty()
    ensures NonEmptyLeaves(ZhMessages)
  {
  }

  /** No display string of the Japanese tree is empty. */
  lemma JaNonEmpty()
    ensures NonEmptyLeaves(JaMessages)
  {
  }

  /** The English tree has the intended layout. */
  lemma EnLayout()
    ensures HasLayout(EnMessages)
  {
  }

  /** A tree with the intended layout resolves every required key path. */
  lemma LayoutResolves(t: Tree, path: seq<string>)
    requires HasLayout(t) && Required(path)
    ensures Lookup(t, path).Some?
  {
  }

  /** Each locale's tree has the shape of the English one and no empty
      display string. */
  lemma MatchesEn(l: Locale)
    ensures l.Code() in Messages
    ensures SameShape(EnMessages, Messages[l.Code()]) && NonEmptyLeaves(Messages[l.Code()])
  {
    match l
    case En =>
      SameShapeReflexive(EnMessages);
      EnNonEmpty();
    case Zh =>
      ZhMatchesEn();
      ZhNonEmpty();
    case Ja =>
      JaMatchesEn();
      JaNonEmpty();
  }

  /** All trees of the catalog have one key structure, and no display
      string of any locale is empty. */
  lemma CatalogConsistent(a: Locale, b: Locale)
    ensures a.Code() in Messages && b.Code() in Messages
    ensures SameShape(Messages[a.Code()], Messages[b.Code()])
    ensures NonEmptyLeaves(Messages[a.Code()])
  {
    MatchesEn(a);
    MatchesEn(b);
    SameShapeSymmetric(EnMessages, Messages[a.Code()]);
    SameShapeTransitive(Messages[a.Code()], EnMessages, Messages[b.Code()]);
  }

  /** Every locale defines every required key path with a non-empty
      string, and resolves no key path that another locale lacks. */
  lemma TranslationsComplete(l: Locale, path: seq<string>)
    ensures l.Code() in Messages
    ensures Required(path) ==>
      Lookup(Messages[l.Code()], path).Some? && Lookup(Messages[l.Code()], path).value != ""
    ensures forall other: Locale ::
              && other.Code() in Messages
              && (Lookup(Messages[l.Code()], path).Some? <==> Lookup(Messages[other.Code()], path).Some?)
  {
    MatchesEn(l);
    var t := Messages[l.Code()];
    forall other: Locale
      ensures other.Code() in Messages
      ensures Lookup(t, path).Some? <==> Lookup(Messages[other.Code()], path).Some?
    {
      CatalogConsistent(l, other);
      SameShapeLookup(t, Messages[other.Code()], path);
    }
    if Required(path) {
      EnLayout();
      LayoutResolves(EnMessages, path);
      SameShapeLookup(EnMessages, t, path);
      NonEmptyLookup(t, path);
    }
  }
}
