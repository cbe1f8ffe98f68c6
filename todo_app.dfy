/**
 * The to-do list store of the `App` component: a draft text, an ordered list of
 * to-dos and a view filter, the transitions the event handlers apply to them,
 * and the filtered view rendered from them.
 *
 * Each transition is a pure function from the old state to the new one; the
 * `Store` class at the end holds the three state cells and applies them.
 */
module TodoApp {

  // ---------------------------------------------------------------------------
  // Data model
  // ---------------------------------------------------------------------------

  /** One to-do item. `id` is never changed after creation. */
  datatype Todo = Todo(value: string, id: int, checked: bool, removed: bool)

  /** The view selector. */
  datatype Filter = All | Checked | Unchecked | Removed

  /** The whole state of the component: the draft, the list and the filter. */
  datatype App = App(text: string, todos: seq<Todo>, filter: Filter)

  /** The state the component starts in. */
  function Initial(): (a: App)
    ensures a.text == "" && a.todos == [] && a.filter == All
  {
    App("", [], All)
  }

  /** No two to-dos share an id. */
  predicate UniqueIds(todos: seq<Todo>) {
    forall i, j :: 0 <= i < j < |todos| ==> todos[i].id != todos[j].id
  }

  // ---------------------------------------------------------------------------
  // Order-preserving filtering (the list's `filter`)
  // ---------------------------------------------------------------------------

  /** `r` can be obtained from `s` by deleting elements, keeping the rest in order. */
  predicate IsSubsequence<T(==)>(r: seq<T>, s: seq<T>)
    decreases |s|
  {
    if r == [] then true
    else if s == [] then false
    else if r[0] == s[0] then IsSubsequence(r[1..], s[1..])
    else IsSubsequence(r, s[1..])
  }

  /**
   * The elements of `s` that satisfy `keep`, in their original order: every
   * kept element occurs as often as in `s`, every other one not at all.
   */
  function Select(s: seq<Todo>, keep: Todo -> bool): (r: seq<Todo>)
    ensures |r| <= |s|
    ensures forall x :: x in r ==> keep(x)
    ensures forall x :: multiset(r)[x] == if keep(x) then multiset(s)[x] else 0
    ensures IsSubsequence(r, s)
    decreases |s|
  {
    if s == [] then []
    else
      assert s == [s[0]] + s[1..];
      var rest := Select(s[1..], keep);
      if keep(s[0]) then
        assert ([s[0]] + rest)[1..] == rest;
        [s[0]] + rest
      else
        assert rest != [] ==> rest[0] in rest;
        rest
  }

  /** Filtering with two predicates that agree everywhere gives the same list. */
  lemma {:induction false} SelectCongruent(s: seq<Todo>, p: Todo -> bool, q: Todo -> bool)
    requires forall x :: p(x) == q(x)
    ensures Select(s, p) == Select(s, q)
    decreases |s|
  {
    if s != [] {
      SelectCongruent(s[1..], p, q);
    }
  }

  /** Filtering with `p`, then with `q`, is filtering once with their conjunction. */
  lemma {:induction false} SelectSelect(s: seq<Todo>, p: Todo -> bool, q: Todo -> bool, pq: Todo -> bool)
    requires forall x :: pq(x) == (p(x) && q(x))
    ensures Select(Select(s, p), q) == Select(s, pq)
    decreases |s|
  {
    if s != [] {
      SelectSelect(s[1..], p, q, pq);
      if p(s[0]) {
        assert ([s[0]] + Select(s[1..], p))[1..] == Select(s[1..], p);
      }
    }
  }

  /** A list all of whose elements are kept passes through unchanged. */
  lemma {:induction false} SelectKeepsAll(s: seq<Todo>, keep: Todo -> bool)
    requires forall x :: x in s ==> keep(x)
    ensures Select(s, keep) == s
    decreases |s|
  {
    if s != [] {
      assert forall x :: x in s[1..] ==> x in s;
      SelectKeepsAll(s[1..], keep);
    }
  }

  /** Filtering twice with the same predicate is filtering once. */
  lemma SelectIdempotent(s: seq<Todo>, keep: Todo -> bool)
    ensures Select(Select(s, keep), keep) == Select(s, keep)
  {
    SelectKeepsAll(Select(s, keep), keep);
  }

  /** Filtering never makes two to-dos share an id. */
  lemma {:induction false} SelectKeepsUniqueIds(todos: seq<Todo>, keep: Todo -> bool)
    requires UniqueIds(todos)
    ensures UniqueIds(Select(todos, keep))
    decreases |todos|
  {
    if todos != [] {
      var tail := todos[1..];
      var rest := Select(tail, keep);
      SelectKeepsUniqueIds(tail, keep);
      if keep(todos[0]) {
        var r := [todos[0]] + rest;
        forall i, j | 0 <= i < j < |r| ensures r[i].id != r[j].id {
          if i == 0 {
            // r[j] is an element of the tail, whose ids all differ from the head's.
            assert r[j] in rest;
            assert multiset(rest)[r[j]] > 0;
            assert r[j] in tail;
            var k :| 0 <= k < |tail| && tail[k] == r[j];
            assert todos[k + 1] == r[j];
          } else {
            assert r[i] == rest[i - 1] && r[j] == rest[j - 1];
          }
        }
      }
    }
  }

  // ---------------------------------------------------------------------------
  // Per-id patches (the list's `map` with the id test)
  // ---------------------------------------------------------------------------

  /** Which field a handler overwrites, and with what. */
  datatype Patch = SetValue(value: string) | SetChecked(checked: bool) | SetRemoved(removed: bool)

  /** The copy of `t` with the named field overwritten (object spread). */
  function Apply(t: Todo, p: Patch): (r: Todo)
    ensures r.id == t.id
    ensures r.value == (if p.SetValue? then p.value else t.value)
    ensures r.checked == (if p.SetChecked? then p.checked else t.checked)
    ensures r.removed == (if p.SetRemoved? then p.removed else t.removed)
  {
    match p
    case SetValue(v) => t.(value := v)
    case SetChecked(c) => t.(checked := c)
    case SetRemoved(d) => t.(removed := d)
  }

  /**
   * Every to-do whose id is `id` patched, every other one left as it was;
   * length, order and ids are kept.
   */
  function PatchById(todos: seq<Todo>, id: int, p: Patch): (r: seq<Todo>)
    ensures |r| == |todos|
    ensures forall i :: 0 <= i < |todos| ==> r[i].id == todos[i].id
    ensures forall i :: 0 <= i < |todos| && todos[i].id != id ==> r[i] == todos[i]
    ensures forall i :: 0 <= i < |todos| && todos[i].id == id ==> r[i] == Apply(todos[i], p)
    decreases |todos|
  {
    if todos == [] then []
    else
      var head := if todos[0].id == id then Apply(todos[0], p) else todos[0];
      [head] + PatchById(todos[1..], id, p)
  }

  /** A patch keeps ids unique, since it keeps every id where it was. */
  lemma PatchKeepsUniqueIds(todos: seq<Todo>, id: int, p: Patch)
    requires UniqueIds(todos)
    ensures UniqueIds(PatchById(todos, id, p))
  {
  }

  // ---------------------------------------------------------------------------
  // The view
  // ---------------------------------------------------------------------------

  /** Whether the filter `f` shows the to-do `t`. */
  predicate Shows(f: Filter, t: Todo) {
    match f
    case All => !t.removed
    case Checked => t.checked && !t.removed
    case Unchecked => !t.checked && !t.removed
    case Removed => t.removed
  }

  /** The test for the completed to-dos. */
  predicate IsChecked(t: Todo) {
    t.checked
  }

  /** The test for the to-dos still in progress. */
  predicate IsUnchecked(t: Todo) {
    !t.checked
  }

  /** `Shows` for one filter, as a predicate on to-dos. */
  function Shown(f: Filter): Todo -> bool {
    t => Shows(f, t)
  }

  /** The to-dos shown under filter `f`, in list order. */
  function View(todos: seq<Todo>, f: Filter): seq<Todo> {
    Select(todos, Shown(f))
  }

  /** The derived list the component renders for its current filter. */
  function FilteredTodos(a: App): (r: seq<Todo>)
    ensures IsSubsequence(r, a.todos)
    ensures forall t :: t in r ==> Shows(a.filter, t)
    ensures forall t :: t in a.todos && Shows(a.filter, t) ==> t in r
    ensures forall t: Todo :: Shows(a.filter, t) ==> multiset(r)[t] == multiset(a.todos)[t]
  {
    var r := View(a.todos, a.filter);
    assert forall t :: t in a.todos && Shows(a.filter, t) ==> multiset(r)[t] > 0;
    r
  }

  /** The trash view holds exactly the removed to-dos, each as often as in the list. */
  lemma ViewRemovedExact(todos: seq<Todo>)
    ensures IsSubsequence(View(todos, Removed), todos)
    ensures forall t :: t in View(todos, Removed) <==> t in todos && t.removed
    ensures forall t: Todo :: t.removed ==> multiset(View(todos, Removed))[t] == multiset(todos)[t]
  {
    var r := View(todos, Removed);
    assert forall t :: t in todos && t.removed ==> multiset(r)[t] > 0;
  }

  /** The `all` view and the trash view split the list between them. */
  lemma ViewAllRemovedPartition(todos: seq<Todo>)
    ensures multiset(View(todos, All)) + multiset(View(todos, Removed)) == multiset(todos)
    ensures |View(todos, All)| + |View(todos, Removed)| == |todos|
  {
  }

  /** `checked` is the checked part of the `all` view, in the same order. */
  lemma ViewCheckedFiltersAll(todos: seq<Todo>)
    ensures View(todos, Checked) == Select(View(todos, All), IsChecked)
  {
    SelectSelect(todos, Shown(All), IsChecked, Shown(Checked));
  }

  /** `unchecked` is the unchecked part of the `all` view, in the same order. */
  lemma ViewUncheckedFiltersAll(todos: seq<Todo>)
    ensures View(todos, Unchecked) == Select(View(todos, All), IsUnchecked)
  {
    SelectSelect(todos, Shown(All), IsUnchecked, Shown(Unchecked));
  }

  /** `checked` and `unchecked` split the `all` view between them. */
  lemma ViewCheckedUncheckedPartition(todos: seq<Todo>)
    ensures multiset(View(todos, Checked)) + multiset(View(todos, Unchecked)) == multiset(View(todos, All))
    ensures |View(todos, Checked)| + |View(todos, Unchecked)| == |View(todos, All)|
  {
  }

  /** The "empty trash" button is enabled when the trash view is not empty. */
  function CanEmptyTrash(todos: seq<Todo>): (b: bool)
    ensures b <==> exists t :: t in todos && t.removed
  {
    var trash := View(todos, Removed);
    assert forall t :: t in todos && t.removed ==> multiset(trash)[t] > 0;
    assert trash != [] ==> trash[0] in trash;
    |trash| != 0
  }

  // ---------------------------------------------------------------------------
  // Transitions
  // ---------------------------------------------------------------------------

  /** Typing into the input: only the draft changes. */
  function Change(a: App, value: string): (r: App)
    ensures r.text == value && r.todos == a.todos && r.filter == a.filter
  {
    a.(text := value)
  }

  /** The to-do a submission creates from the draft. */
  function NewTodo(text: string, id: int): (t: Todo)
    ensures t.value == text && t.id == id && !t.checked && !t.removed
  {
    Todo(text, id, false, false)
  }

  /**
   * Submitting the draft with the fresh id `id`: nothing happens to an empty
   * draft; otherwise the new to-do is put in front of the list and the draft
   * is cleared.
   */
  function Submit(a: App, id: int): (r: App)
    ensures a.text == "" ==> r == a
    ensures a.text != "" ==>
      && |r.todos| == |a.todos| + 1
      && r.todos[0] == NewTodo(a.text, id)
      && r.todos[1..] == a.todos
      && r.text == ""
      && r.filter == a.filter
  {
    if a.text == "" then a
    else
      var todos := [NewTodo(a.text, id)] + a.todos;
      assert todos[1..] == a.todos;
      a.(text := "", todos := todos)
  }

  /** With an id not yet in the list, submitting keeps ids unique. */
  lemma SubmitKeepsUniqueIds(a: App, id: int)
    requires UniqueIds(a.todos)
    requires forall t :: t in a.todos ==> t.id != id
    ensures UniqueIds(Submit(a, id).todos)
  {
  }

  /** Editing the text of the to-do with id `id`. */
  function Edit(a: App, id: int, value: string): (r: App)
    ensures r.text == a.text && r.filter == a.filter && |r.todos| == |a.todos|
    ensures forall i :: 0 <= i < |a.todos| ==>
      r.todos[i] == if a.todos[i].id == id then a.todos[i].(value := value) else a.todos[i]
  {
    a.(todos := PatchById(a.todos, id, SetValue(value)))
  }

  /** Setting the completion flag of the to-do with id `id`. */
  function Check(a: App, id: int, checked: bool): (r: App)
    ensures r.text == a.text && r.filter == a.filter && |r.todos| == |a.todos|
    ensures forall i :: 0 <= i < |a.todos| ==>
      r.todos[i] == if a.todos[i].id == id then a.todos[i].(checked := checked) else a.todos[i]
  {
    a.(todos := PatchById(a.todos, id, SetChecked(checked)))
  }

  /** Setting the trash flag of the to-do with id `id` (delete and restore). */
  function Remove(a: App, id: int, removed: bool): (r: App)
    ensures r.text == a.text && r.filter == a.filter && |r.todos| == |a.todos|
    ensures forall i :: 0 <= i < |a.todos| ==>
      r.todos[i] == if a.todos[i].id == id then a.todos[i].(removed := removed) else a.todos[i]
  {
    a.(todos := PatchById(a.todos, id, SetRemoved(removed)))
  }

  /** Edit, check and remove with an unknown id leave the state exactly as it was. */
  lemma UnknownIdIsNoOp(a: App, id: int, value: string, checked: bool, removed: bool)
    requires forall t :: t in a.todos ==> t.id != id
    ensures Edit(a, id, value) == a
    ensures Check(a, id, checked) == a
    ensures Remove(a, id, removed) == a
  {
  }

  /**
   * Pressing "delete" and then "restore" on a to-do (each press passes the
   * negation of the flag it shows) gives back the list it started from,
   * provided ids are unique.
   */
  lemma RemoveToggleRestores(a: App, k: int)
    requires UniqueIds(a.todos) && 0 <= k < |a.todos|
    ensures
      var t := a.todos[k];
      var b := Remove(a, t.id, !t.removed);
      Remove(b, t.id, !b.todos[k].removed) == a
  {
  }

  /** Choosing a filter: only the view selector changes. */
  function SelectFilter(a: App, f: Filter): (r: App)
    ensures r.filter == f && r.todos == a.todos && r.text == a.text
  {
    a.(filter := f)
  }

  /** The test the trash is emptied by. */
  predicate NotRemoved(t: Todo) {
    !t.removed
  }

  /** The list with every removed to-do dropped for good. */
  function WithoutRemoved(todos: seq<Todo>): (r: seq<Todo>)
    ensures IsSubsequence(r, todos)
    ensures forall t :: t in r <==> t in todos && !t.removed
    ensures forall t: Todo :: !t.removed ==> multiset(r)[t] == multiset(todos)[t]
  {
    var r := Select(todos, NotRemoved);
    assert forall t :: t in todos && !t.removed ==> multiset(r)[t] > 0;
    r
  }

  /** Emptying the trash: only the list changes. */
  function EmptyTrash(a: App): (r: App)
    ensures r.text == a.text && r.filter == a.filter
    ensures forall t :: t in r.todos ==> !t.removed
    ensures IsSubsequence(r.todos, a.todos)
    ensures forall t: Todo :: !t.removed ==> multiset(r.todos)[t] == multiset(a.todos)[t]
  {
    a.(todos := WithoutRemoved(a.todos))
  }

  /** Emptying the trash leaves exactly what the `all` view shows. */
  lemma WithoutRemovedIsAllView(todos: seq<Todo>)
    ensures WithoutRemoved(todos) == View(todos, All)
  {
    SelectCongruent(todos, NotRemoved, Shown(All));
  }

  /** Emptying the trash twice is emptying it once. */
  lemma EmptyTrashIdempotent(a: App)
    ensures EmptyTrash(EmptyTrash(a)) == EmptyTrash(a)
  {
    SelectKeepsAll(WithoutRemoved(a.todos), NotRemoved);
  }

  /** Emptying the trash does not change what the `all` view shows. */
  lemma EmptyTrashKeepsAllView(a: App)
    ensures View(EmptyTrash(a).todos, All) == View(a.todos, All)
  {
    WithoutRemovedIsAllView(a.todos);
    SelectIdempotent(a.todos, Shown(All));
  }

  /** After emptying the trash, the trash view is empty and its button disabled. */
  lemma EmptyTrashClearsTrash(a: App)
    ensures View(EmptyTrash(a).todos, Removed) == []
    ensures !CanEmptyTrash(EmptyTrash(a).todos)
  {
  }

  /** Emptying the trash keeps ids unique. */
  lemma EmptyTrashKeepsUniqueIds(a: App)
    requires UniqueIds(a.todos)
    ensures UniqueIds(EmptyTrash(a).todos)
  {
    SelectKeepsUniqueIds(a.todos, NotRemoved);
  }

  /**
   * A session: type "buy milk" and add it, tick it, look at the unfinished
   * ones, delete it, look at the trash, empty the trash.
   */
  lemma BuyMilkSession(id: int)
    ensures
      var a1 := Submit(Change(Initial(), "buy milk"), id);
      var a2 := Check(a1, id, true);
      var a3 := SelectFilter(a2, Unchecked);
      var a4 := SelectFilter(Remove(a3, id, true), Removed);
      var a5 := EmptyTrash(a4);
      && a1.todos == [Todo("buy milk", id, false, false)] && a1.text == ""
      && a2.todos == [Todo("buy milk", id, true, false)]
      && FilteredTodos(a3) == []
      && FilteredTodos(a4) == [Todo("buy milk", id, true, true)]
      && CanEmptyTrash(a4.todos)
      && a5.todos == []
  {
  }

  // ---------------------------------------------------------------------------
  // The component's state cells
  // ---------------------------------------------------------------------------

  /** The three state cells of the component and the handlers that set them. */
  class Store {
    var text: string
    var todos: seq<Todo>
    var filter: Filter

    /** The current contents of the three cells. */
    function State(): App
      reads this
    {
      App(text, todos, filter)
    }

    constructor ()
      ensures State() == Initial()
    {
      text, todos, filter := "", [], All;
    }

    method HandleChange(value: string)
      modifies this
      ensures State() == Change(old(State()), value)
    {
      text := value;
    }

    /** Submits the draft; `id` stands for the creation timestamp. */
    method HandleSubmit(id: int)
      modifies this
      ensures State() == Submit(old(State()), id)
    {
      if text == "" {
        return;
      }
      var newTodo := Todo(text, id, false, false);
      todos := [newTodo] + todos;
      text := "";
    }

    method HandleEdit(id: int, value: string)
      modifies this
      ensures State() == Edit(old(State()), id, value)
    {
      todos := PatchById(todos, id, SetValue(value));
    }

    method HandleCheck(id: int, checked: bool)
      modifies this
      ensures State() == Check(old(State()), id, checked)
    {
      todos := PatchById(todos, id, SetChecked(checked));
    }

    method HandleRemove(id: int, removed: bool)
      modifies this
      ensures State() == Remove(old(State()), id, removed)
    {
      todos := PatchById(todos, id, SetRemoved(removed));
    }

    method HandleFilter(f: Filter)
      modifies this
      ensures State() == SelectFilter(old(State()), f)
    {
      filter := f;
    }

    method HandleEmpty()
      modifies this
      ensures State() == EmptyTrash(old(State()))
    {
      todos := WithoutRemoved(todos);
    }

    /** The list to render; reading it changes no cell. */
    method Visible() returns (r: seq<Todo>)
      ensures r == FilteredTodos(State())
    {
      r := View(todos, filter);
    }

    /** Whether the "empty trash" button is enabled. */
    method TrashButtonEnabled() returns (enabled: bool)
      ensures enabled <==> exists t :: t in todos && t.removed
    {
      enabled := CanEmptyTrash(todos);
    }
  }

  /** The session of `BuyMilkSession`, played on a store. */
  method StoreSession(id: int) {
    var s := new Store();
    s.HandleChange("buy milk");
    s.HandleSubmit(id);
    assert s.todos == [Todo("buy milk", id, false, false)];
    s.HandleCheck(id, true);
    s.HandleFilter(Unchecked);
    var open := s.Visible();
    assert open == [];
    s.HandleRemove(id, true);
    s.HandleFilter(Removed);
    var trash := s.Visible();
    assert trash == [Todo("buy milk", id, true, true)];
    var enabled := s.TrashButtonEnabled();
    assert enabled;
    s.HandleEmpty();
    assert s.todos == [];
  }
}
