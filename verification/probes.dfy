/**
 * What the checks observe of the outside world. Neither script's decision
 * logic depends on how a command was run or a request was sent, only on
 * what came back, so each observation is a plain value passed in.
 */
module Probes {

  /** `SystemValidator.run_command`: whether the shell command exited with
      status 0, and its standard output followed by its standard error (or
      the timeout / exception text when it could not be run). */
  datatype Command = Command(ok: bool, output: string)

  /** `subprocess.run(...)` as test_system.py calls it: either the process
      ran, with its exit status and its two output streams, or the call
      itself raised (docker not installed, timeout). */
  datatype Run = Ran(exitZero: bool, stdout: string, stderr: string) | Crashed

  /** An HTTP request through `requests`: answered with a status code and
      a decoded body, or failed with a `requests.RequestException`. */
  datatype Reply<B> = Answered(status: int, body: B) | RequestFailed

  /** The request was answered with HTTP 200. */
  predicate IsOk<B>(reply: Reply<B>)
  {
    reply.Answered? && reply.status == 200
  }
}
