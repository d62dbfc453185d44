/** What an editor transaction of the plugin dispatches: a replaced range and where the cursor goes. */
module Editor {
  /** `view.dispatch({changes: {from, to, insert}, selection: EditorSelection.cursor(cursor)})`. */
  datatype Change = Change(from: nat, to: nat, insert: string, cursor: nat)
}
