/** The unbalanced binary search tree keyed by first-level number. Every operation works on the
    links and elements of the nodes in place and refines a finite map. */
module SearchTree {

  class TreeNode<V> {
    var key: nat
    var value: V
    var left: TreeNode?<V>
    var right: TreeNode?<V>
    ghost var Repr: set<TreeNode<V>>
    ghost var Map: map<int, V>

    ghost predicate Valid()
      reads this, Repr
      ensures Valid() ==> this in Repr
    {
      && this in Repr
      && (left != null ==>
        && left in Repr && left.Repr <= Repr && this !in left.Repr && left.Valid()
        && forall k :: k in left.Map ==> k < key)
      && (right != null ==>
        && right in Repr && right.Repr <= Repr && this !in right.Repr && right.Valid()
        && forall k :: k in right.Map ==> key < k)
      && (left != null && right != null ==> left.Repr !! right.Repr)
      && Map == Join(MapOf(left), MapOf(right), key, value)
    }

    constructor (key: nat, value: V)
      ensures Valid() && Repr == {this} && Map == map[key := value]
    {
      this.key, this.value := key, value;
      left, right := null, null;
      Repr := {this};
      Map := map[key := value];
    }

    // The two subtrees fit under this node.
    ghost predicate Fits(l: TreeNode?<V>, r: TreeNode?<V>)
      reads this, l, r, ReprOf(l), ReprOf(r)
    {
      && ValidTree(l) && ValidTree(r) && Ordered(MapOf(l), MapOf(r), key)
      && this !in ReprOf(l) && this !in ReprOf(r) && ReprOf(l) !! ReprOf(r)
    }

    method SetLeft(l: TreeNode?<V>)
      requires Fits(l, right)
      modifies this
      ensures Valid() && Repr == {this} + ReprOf(l) + ReprOf(right)
      ensures Map == Join(MapOf(l), MapOf(right), key, value)
      ensures key == old(key) && value == old(value) && left == l && right == old(right)
    {
      left := l;
      Repr := {this} + ReprOf(left) + ReprOf(right);
      Map := Join(MapOf(left), MapOf(right), key, value);
    }

    method SetRight(r: TreeNode?<V>)
      requires Fits(left, r)
      modifies this
      ensures Valid() && Repr == {this} + ReprOf(left) + ReprOf(r)
      ensures Map == Join(MapOf(left), MapOf(r), key, value)
      ensures key == old(key) && value == old(value) && left == old(left) && right == r
    {
      right := r;
      Repr := {this} + ReprOf(left) + ReprOf(right);
      Map := Join(MapOf(left), MapOf(right), key, value);
    }
  }

  ghost function MapOf<V>(t: TreeNode?<V>): map<int, V>
    reads t
  {
    if t == null then map[] else t.Map
  }

  ghost function ReprOf<V>(t: TreeNode?<V>): set<TreeNode<V>>
    reads t
  {
    if t == null then {} else t.Repr
  }

  ghost predicate ValidTree<V>(t: TreeNode?<V>)
    reads t, ReprOf(t)
  {
    t == null || t.Valid()
  }

  // ---------- the map of a node after one of its subtrees changed ----------

  ghost function Join<V>(l: map<int, V>, r: map<int, V>, key: nat, value: V): map<int, V> {
    l + r + map[key := value]
  }

  ghost function Inserted<V>(m: map<int, V>, key: nat, value: V): map<int, V> {
    if key in m then m else m[key := value]
  }

  ghost predicate Ordered<V>(l: map<int, V>, r: map<int, V>, key: nat) {
    (forall k :: k in l ==> k < key) && (forall k :: k in r ==> key < k)
  }

  lemma InsertedLeft<V>(l: map<int, V>, r: map<int, V>, root: nat, v: V, key: nat, value: V)
    requires Ordered(l, r, root) && key < root
    ensures Join(Inserted(l, key, value), r, root, v) == Inserted(Join(l, r, root, v), key, value)
    ensures Ordered(Inserted(l, key, value), r, root)
  {
  }

  lemma InsertedRight<V>(l: map<int, V>, r: map<int, V>, root: nat, v: V, key: nat, value: V)
    requires Ordered(l, r, root) && key > root
    ensures Join(l, Inserted(r, key, value), root, v) == Inserted(Join(l, r, root, v), key, value)
    ensures Ordered(l, Inserted(r, key, value), root)
  {
  }

  lemma DeletedLeft<V>(l: map<int, V>, r: map<int, V>, root: nat, v: V, key: nat)
    requires Ordered(l, r, root) && key < root
    ensures Join(l - {key}, r, root, v) == Join(l, r, root, v) - {key}
    ensures Ordered(l - {key}, r, root)
  {
  }

  lemma DeletedRight<V>(l: map<int, V>, r: map<int, V>, root: nat, v: V, key: nat)
    requires Ordered(l, r, root) && key > root
    ensures Join(l, r - {key}, root, v) == Join(l, r, root, v) - {key}
    ensures Ordered(l, r - {key}, root)
  {
  }

  lemma DeletedRoot<V>(l: map<int, V>, r: map<int, V>, root: nat, v: V)
    requires Ordered(l, r, root)
    ensures Join(l, r, root, v) - {root} == l + r
  {
  }

  lemma LeastMovedUp<V>(l: map<int, V>, r: map<int, V>, root: nat, v: V, least: nat)
    requires Ordered(l, r, root) && least in r && forall k :: k in r ==> least <= k
    ensures Join(l, r - {least}, least, r[least]) == Join(l, r, root, v) - {root}
    ensures Ordered(l, r - {least}, least)
  {
  }

  method Find<V>(key: nat, t: TreeNode?<V>) returns (pos: TreeNode?<V>)
    requires ValidTree(t)
    ensures pos == null <==> key !in MapOf(t)
    ensures pos != null ==> pos in ReprOf(t) && pos.key == key && pos.value == MapOf(t)[key]
    decreases ReprOf(t)
  {
    if t == null {
      pos := null;
    } else if key < t.key {
      pos := Find(key, t.left);
    } else if key > t.key {
      pos := Find(key, t.right);
    } else {
      pos := t;
    }
  }

  method FindMin<V>(t: TreeNode?<V>) returns (pos: TreeNode?<V>)
    requires ValidTree(t)
    ensures pos == null <==> t == null
    ensures pos != null ==> pos in ReprOf(t) && pos.key in MapOf(t) && pos.value == MapOf(t)[pos.key]
    ensures pos != null ==> forall k :: k in MapOf(t) ==> pos.key <= k
    decreases ReprOf(t)
  {
    if t == null {
      pos := null;
    } else if t.left == null {
      pos := t;
    } else {
      pos := FindMin(t.left);
      assert t.left.key in t.left.Map;
    }
  }

  /** An element whose key is present already changes nothing. */
  method Insert<V>(key: nat, value: V, t: TreeNode?<V>) returns (r: TreeNode<V>)
    requires ValidTree(t)
    modifies ReprOf(t)
    ensures r.Valid() && fresh(r.Repr - old(ReprOf(t)))
    ensures r.Map == Inserted(old(MapOf(t)), key, value)
    decreases ReprOf(t)
  {
    if t == null {
      r := new TreeNode(key, value);
    } else {
      if key < t.key {
        InsertedLeft(MapOf(t.left), MapOf(t.right), t.key, t.value, key, value);
        var l := Insert(key, value, t.left);
        t.SetLeft(l);
      } else if key > t.key {
        InsertedRight(MapOf(t.left), MapOf(t.right), t.key, t.value, key, value);
        var l := Insert(key, value, t.right);
        t.SetRight(l);
      }
      r := t;
    }
  }

  /** A node with two children takes over the least element of its right subtree. */
  method Delete<V>(key: nat, t: TreeNode?<V>) returns (r: TreeNode?<V>)
    requires ValidTree(t)
    modifies ReprOf(t)
    ensures ValidTree(r) && ReprOf(r) <= old(ReprOf(t))
    ensures MapOf(r) == old(MapOf(t)) - {key}
    decreases ReprOf(t), 1
  {
    r := t;
    if t != null {
      if key < t.key {
        DeletedLeft(MapOf(t.left), MapOf(t.right), t.key, t.value, key);
        var l := Delete(key, t.left);
        t.SetLeft(l);
      } else if key > t.key {
        DeletedRight(MapOf(t.left), MapOf(t.right), t.key, t.value, key);
        var l := Delete(key, t.right);
        t.SetRight(l);
      } else if t.left != null && t.right != null {
        TakeLeastOfRight(t);
      } else {
        DeletedRoot(MapOf(t.left), MapOf(t.right), t.key, t.value);
        if t.left == null {
          r := t.right;
        } else {
          r := t.left;
        }
      }
    }
  }

  method TakeLeastOfRight<V>(t: TreeNode<V>)
    requires t.Valid() && t.left != null && t.right != null
    modifies t.Repr
    ensures t.Valid() && t.Repr <= old(t.Repr)
    ensures t.Map == old(t.Map) - {old(t.key)}
    decreases ReprOf(t), 0
  {
    hide Join, Ordered;
    ghost var l, r, root, v := t.left.Map, t.right.Map, t.key, t.value;
    var least := FindMin(t.right);
    LeastMovedUp(l, r, root, v, least.key);
    t.key, t.value := least.key, least.value;
    var u := Delete(t.key, t.right);
    t.SetRight(u);
  }
}
