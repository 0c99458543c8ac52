/** The add-todo form: a title field and an add action guarded by trimming. */
module AddTodo {
  import opened Wrappers
  import opened Text

  datatype AddTodoForm = AddTodoForm(newTodoTitle: string)

  /** The form after an action, and the title it emitted (if any). */
  datatype AddResult = AddResult(form: AddTodoForm, emitted: Option<string>)

  const EmptyForm: AddTodoForm := AddTodoForm("")

  /** The add button's `disabled` binding. */
  predicate AddDisabled(f: AddTodoForm)
    ensures AddDisabled(f) <==> AllWhitespace(f.newTodoTitle)
  {
    Trim(f.newTodoTitle) == []
  }

  /** `addTodo`: emit the trimmed title and clear the field, or do nothing. */
  function AddTodo(f: AddTodoForm): (r: AddResult)
    ensures r.emitted.Some? <==> !AllWhitespace(f.newTodoTitle)
    ensures r.emitted.Some? ==> r.emitted.value != [] && IsTrimmed(r.emitted.value)
    ensures r.emitted.Some? ==> r.emitted.value == Trim(f.newTodoTitle) && r.form == EmptyForm
    ensures r.emitted.None? ==> r.form == f
  {
    TrimEmptyIffAllWhitespace(f.newTodoTitle);
    var title := Trim(f.newTodoTitle);
    if title != [] then AddResult(EmptyForm, Some(title)) else AddResult(f, None)
  }

  /** The button is disabled exactly when pressing it would emit nothing. */
  lemma AddDisabledIffNoEmit(f: AddTodoForm)
    ensures AddDisabled(f) <==> AddTodo(f).emitted.None?
  {
  }

  /** After an emission the field is empty, and after no emission it is still
      blank, so adding again at once never emits. */
  lemma SecondAddEmitsNothing(f: AddTodoForm)
    ensures AddTodo(AddTodo(f).form).emitted.None?
    ensures AddTodo(f).emitted.Some? ==> AddTodo(AddTodo(f).form).form == EmptyForm
  {
  }

  /** Padding a title with whitespace does not change what is emitted. */
  lemma AddIgnoresPadding(title: string, before: string, after: string)
    requires title != [] && IsTrimmed(title)
    requires AllWhitespace(before) && AllWhitespace(after)
    ensures AddTodo(AddTodoForm(before + title + after)).emitted == Some(title)
  {
    TrimOfPadded(before, title, after);
  }
}
