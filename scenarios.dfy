/** Request sequences against a fresh store, with what the contracts of the
    route methods let a client conclude about their answers. */
module Scenarios {
  import opened Tasks
  import opened Validation
  import opened Store

  /** A created task gets id 1 and the default status, and reads back. */
  method CreateThenGet()
  {
    var store := new TaskStore();
    var created := store.PostTask(Body(Some("A"), Some("B"), None), 1000);
    var a := Task(1, "A", "B", "pending", 1000);
    assert created == Created(a) && StatusCode(created) == 201;
    assert Matches(store.tasks[0], Some(1));
    var found := store.GetTask(Some(1));
    assert found == Found(a);
  }

  /** A PUT whose body has only a status is refused by the middleware, which
      requires a title and a description on every PUT; with them it updates. */
  method PutNeedsTitleAndDescription()
  {
    var store := new TaskStore();
    var a := Task(1, "A", "B", "pending", 1000);
    var _ := store.PostTask(Body(Some("A"), Some("B"), None), 1000);
    assert store.tasks == [a];
    var updated := store.PutTask(Some(1), Body(None, None, Some("completed")));
    assert updated == BadRequest(MissingFields) && StatusCode(updated) == 400;
    assert Matches(store.tasks[0], Some(1));
    updated := store.PutTask(Some(1), Body(Some("A"), Some("B"), Some("completed")));
    assert updated == Updated(a.(status := "completed"));
  }

  /** After a delete the id is gone: a second get or delete is not found. */
  method DeleteTwice()
  {
    var store := new TaskStore();
    var _ := store.PostTask(Body(Some("A"), Some("B"), None), 1000);
    assert Matches(store.tasks[0], Some(1));
    var deleted := store.DeleteTask(Some(1));
    assert deleted == Deleted;
    var found := store.GetTask(Some(1));
    assert found == NotFound && StatusCode(found) == 404;
    deleted := store.DeleteTask(Some(1));
    assert deleted == NotFound;
  }

  /** The counter is not reset by a delete: the next task gets a new id. */
  method IdNotReusedAfterDelete()
  {
    var store := new TaskStore();
    var body := Body(Some("A"), Some("B"), None);
    var first := store.PostTask(body, 1000);
    assert first.Created? && store.tasks == [first.task] && first.task.id == 1;
    assert Matches(store.tasks[0], Some(1));
    var deleted := store.DeleteTask(Some(1));
    assert store.tasks == [] && store.nextId == 2;
    var second := store.PostTask(body, 2000);
    assert second.Created? && second.task.id == 2;
  }

  /** A status outside the three values is refused before anything changes;
      an empty status passes and is stored as it is, not as the default. */
  method StatusEdgeCases()
  {
    var store := new TaskStore();
    var bogus := store.PostTask(Body(Some("A"), Some("B"), Some("bogus")), 1000);
    assert bogus == BadRequest(InvalidStatus);
    assert store.tasks == [] && store.nextId == 1;

    var empty := store.PostTask(Body(Some("A"), Some("B"), Some("")), 1000);
    assert empty.Created? && empty.task.status == "" && empty.task.id == 1;

    var missing := store.PostTask(Body(Some("A"), Some(""), None), 1000);
    assert missing == BadRequest(MissingFields);
  }

  /** Called without the middleware, the PUT handler writes the title and
      then answers 400 for the bad status: the write stays. */
  method UpdateHandlerAloneIsNotAtomic()
  {
    var store := new TaskStore();
    var created := store.PostTask(Body(Some("A"), Some("B"), None), 1000);
    assert Matches(store.tasks[0], Some(1));
    var r := store.UpdateHandler(Some(1), Body(Some("X"), None, Some("bogus")));
    assert r == BadRequest(InvalidStatus);
    assert store.tasks == [Task(1, "X", "B", "pending", 1000)];
  }

  /** A status filter leaves out the tasks of other statuses. */
  method ListFiltersByStatus()
  {
    var store := new TaskStore();
    var t := Task(1, "B", "b", "completed", 100);
    var _ := store.PostTask(Body(Some("B"), Some("b"), Some("completed")), 100);
    assert store.tasks == [t];
    var pending := store.ListTasks(Query(Some("pending"), None));
    assert t !in pending.tasks;
  }

  /** A sort value other than `asc` or `desc` keeps insertion order, even
      where creation times decrease. */
  method ListIgnoresUnknownSort()
  {
    var store := new TaskStore();
    var ta, tb := Task(1, "A", "a", "pending", 300), Task(2, "B", "b", "completed", 100);
    var _ := store.PostTask(Body(Some("A"), Some("a"), None), 300);
    var _ := store.PostTask(Body(Some("B"), Some("b"), Some("completed")), 100);
    assert store.tasks == [ta, tb];
    var all := store.ListTasks(Query(None, Some("newest")));
    assert all == Listed([ta, tb]);
  }
}
