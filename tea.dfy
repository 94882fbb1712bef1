/** What a bubbletea Update returns besides the new model: the follow-up
    command, reduced to what it does. */
module Tea {

  /** NextMessage waits for the next update on the progress channel
      (waitForUpdates, listen, listenProgress); Tick re-arms a timer;
      Panic stands for the run-time panic of a nil pointer dereference,
      which ends the program. */
  datatype Cmd = NoCmd | Quit | NextMessage | Tick | Panic
}
