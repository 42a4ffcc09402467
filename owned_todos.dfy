/**
 * The todo side of the account server: todos carry their owner's id, and every
 * lookup matches on the todo id and the owner id together.
 */
module OwnedTodos {
  import opened Wrappers
  import opened Arrays

  datatype Todo = Todo(id: string, userId: string, text: string, completed: bool)

  /** `t.id === id && t.userId === user.id` */
  function IsOwned(id: string, userId: string): Todo -> bool
  {
    (t: Todo) => t.id == id && t.userId == userId
  }

  /** `t.userId === user.id` */
  function BelongsTo(userId: string): Todo -> bool
  {
    (t: Todo) => t.userId == userId
  }

  ghost predicate UniqueIds(todos: seq<Todo>)
  {
    forall i, j :: 0 <= i < j < |todos| ==> todos[i].id != todos[j].id
  }

  /** A freshly generated UUID: no stored todo has it. */
  predicate IdFresh(todos: seq<Todo>, id: string)
  {
    forall t :: t in todos ==> t.id != id
  }

  /** The list a user sees: exactly their todos, in storage order. */
  function OwnedBy(todos: seq<Todo>, userId: string): (r: seq<Todo>)
    ensures forall t :: t in r <==> t in todos && t.userId == userId
  {
    Filter(todos, BelongsTo(userId))
  }

  /**
   * The partial update: a supplied field replaces the stored one, an absent
   * (`undefined`) field keeps it, and the id and owner never change.
   */
  function Patch(t: Todo, text: Option<string>, completed: Option<bool>): (r: Todo)
    ensures r.id == t.id && r.userId == t.userId
    ensures r.text == if text.Some? then text.value else t.text
    ensures r.completed == if completed.Some? then completed.value else t.completed
  {
    t.(text := if text.Some? then text.value else t.text,
       completed := if completed.Some? then completed.value else t.completed)
  }

  /** A created todo is found by its id for its owner, at the end, and ends that owner's list. */
  lemma {:induction false} CreateThenGet(todos: seq<Todo>, t: Todo)
    requires IdFresh(todos, t.id)
    ensures FindIndex(todos + [t], IsOwned(t.id, t.userId)) == Some(|todos|)
    ensures OwnedBy(todos + [t], t.userId) == OwnedBy(todos, t.userId) + [t]
  {
    forall j | 0 <= j < |todos| ensures !IsOwned(t.id, t.userId)(todos[j]) {
      assert todos[j] in todos;
    }
    FindIndexAppended(todos, t, IsOwned(t.id, t.userId));
    FilterAppend(todos, [t], BelongsTo(t.userId));
    assert Filter([t], BelongsTo(t.userId)) == [t] + Filter([t][1..], BelongsTo(t.userId));
  }

  /** After an update the same todo is found at the same index, now patched. */
  lemma {:induction false} UpdateThenGet(todos: seq<Todo>, id: string, userId: string, i: nat, text: Option<string>, completed: Option<bool>)
    requires FindIndex(todos, IsOwned(id, userId)) == Some(i)
    ensures FindIndex(todos[i := Patch(todos[i], text, completed)], IsOwned(id, userId)) == Some(i)
  {
    FindIndexAfterUpdate(todos, IsOwned(id, userId), i, Patch(todos[i], text, completed));
  }

  /** Once the only todo with an id is spliced out, no user finds that id any more. */
  lemma DeleteThenGet(todos: seq<Todo>, id: string, userId: string, i: nat, anyone: string)
    requires UniqueIds(todos)
    requires FindIndex(todos, IsOwned(id, userId)) == Some(i)
    ensures FindIndex(Splice(todos, i), IsOwned(id, anyone)).None?
  {
  }

  /**
   * Ownership isolation: a todo owned by one user is neither listed for another
   * user nor found by the other user's id-and-owner lookup, which then answers
   * exactly as for an id that does not exist.
   */
  lemma ForeignTodoInvisible(todos: seq<Todo>, t: Todo, other: string)
    requires UniqueIds(todos)
    requires t in todos && t.userId != other
    ensures t !in OwnedBy(todos, other)
    ensures FindIndex(todos, IsOwned(t.id, other)).None?
  {
  }

  /** Appending a todo with a fresh id keeps todo ids unique. */
  lemma CreateKeepsIdsUnique(todos: seq<Todo>, t: Todo)
    requires UniqueIds(todos) && IdFresh(todos, t.id)
    ensures UniqueIds(todos + [t])
  {
  }

  /** Patching a todo in place keeps todo ids unique. */
  lemma UpdateKeepsIdsUnique(todos: seq<Todo>, i: nat, text: Option<string>, completed: Option<bool>)
    requires UniqueIds(todos) && i < |todos|
    ensures UniqueIds(todos[i := Patch(todos[i], text, completed)])
  {
  }

  /** Splicing a todo out keeps todo ids unique. */
  lemma DeleteKeepsIdsUnique(todos: seq<Todo>, i: nat)
    requires UniqueIds(todos) && i < |todos|
    ensures UniqueIds(Splice(todos, i))
  {
  }
}
