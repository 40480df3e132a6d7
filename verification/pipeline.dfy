/** The two ends of the worker's pipes together: what the worker prints is what the
    supervisor reads, and what the supervisor writes is what the worker reads. */
module Pipeline {
  import opened Wrappers
  import opened Json
  import Supervisor
  import Worker

  /** A freshly spawned worker's first two lines make the supervisor ready exactly when
      every model repository is ready and every model loaded within its join. */
  lemma StartupReadiness(s: Supervisor.Sup, g: nat, fs: Worker.Node, root: Worker.Path,
                         init: Worker.InitInputs, inputs: seq<(string, Worker.Env)>)
    requires Supervisor.Wf(s) && g < |s.workers|
    requires s.workers[g] == Supervisor.Handshake(false, false, false)
    ensures var out := Worker.Output(fs, root, init, inputs);
      |out| >= 2 &&
      var s2 := Supervisor.OnLine(Supervisor.OnLine(s, g, out[0]), g, out[1]);
      && (s2.serverReady <==>
            s.serverReady
            || (Worker.MissingRepos(fs, root) == [] && !Worker.AnyStillRunning(init.loads)
                && Worker.FailedLoads(init.loads, init.order) == []))
      && s2.workers[g].resolved
  {
    var r := Worker.InitResult(Worker.Started, fs, root, init);
    Worker.StartsWithHandshake(fs, root, init, inputs);
    Worker.InitResultSuccess(Worker.Started, fs, root, init);
    assert Worker.Sentinel == Supervisor.Sentinel;
    Supervisor.HandshakeReadsInitResult(s, g, r.0, Spaced);
  }

  /** A command sent to a ready supervisor reaches the worker as the same command, gets
      one reply, and that reply settles the command. */
  lemma CommandRoundTrip(s: Supervisor.Sup, id: nat, cmd: Json, w: Worker.Worker, env: Worker.Env)
    requires Supervisor.Wf(s) && s.process.Some? && s.serverReady
    requires forall i :: 0 <= i < |s.pending| ==> s.pending[i].id != id
    requires cmd.Obj? && Valid(cmd) && Valid(env.duration)
    ensures var s1 := Supervisor.SendCommand(s, id, cmd);
      var sent := s1.stdin[|s1.stdin| - 1];
      && sent.0 == s.process.value
      && Worker.HandleLine(w, sent.1, env) == Worker.Dispatch(w, cmd, env)
    ensures var out := Worker.Dispatch(w, cmd, env).out;
      && |out| == 1
      && (id, Supervisor.Replied(out[0]))
           in Supervisor.OnLine(Supervisor.SendCommand(s, id, cmd), s.process.value,
                                Serialize(out[0], Spaced)).outcomes
  {
    var g := s.process.value;
    var s1 := Supervisor.SendCommand(s, id, cmd);
    var h := Worker.Dispatch(w, cmd, env);
    assert s1.stdin[|s1.stdin| - 1] == (g, Serialize(cmd, Compact) + "\n");
    Worker.CommandLineDispatched(w, cmd, env);
    Worker.DispatchValid(w, cmd, env);
    var reply := h.out[0];
    ReplySettles(s, id, cmd, reply);
  }

  lemma ReplySettles(s: Supervisor.Sup, id: nat, cmd: Json, reply: Json)
    requires Supervisor.Wf(s) && s.process.Some? && s.serverReady
    requires forall i :: 0 <= i < |s.pending| ==> s.pending[i].id != id
    requires reply.Obj? && Valid(reply)
    ensures (id, Supervisor.Replied(reply))
      in Supervisor.OnLine(Supervisor.SendCommand(s, id, cmd), s.process.value, Serialize(reply, Spaced)).outcomes
  {
    var text := Serialize(reply, Spaced);
    ParseSerialize(reply, Spaced);
    ObjectTextTrims(reply, Spaced);
    Supervisor.CommandAnsweredByFirstJsonLine(s, id, cmd, text);
  }
}
