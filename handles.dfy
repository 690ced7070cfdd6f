/**
 * Opaque stand-ins for the library objects a node and a network hold:
 * the FastAPI application, the uvicorn server, the Python thread that
 * serves it, and the callables handed in by client code.
 */
module Handles {

  /** An opaque callable (a bound method or a function object), compared by identity. */
  datatype Callback = Callback(id: nat)

  /** The life of a `threading.Thread`: created, started, terminated. */
  datatype ThreadStatus = NotStarted | Running | Finished

  /** The FastAPI application built by `_set_app`, with the activity middleware installed. */
  class App {
    constructor ()
    {
    }
  }

  /** A uvicorn server configured with an application and a bind target. */
  class Server {
    const app: App
    const host: string
    const port: int

    constructor (app: App, host: string, port: int)
      ensures this.app == app && this.host == host && this.port == port
    {
      this.app := app;
      this.host := host;
      this.port := port;
    }
  }

  /** The daemon thread that runs `server.serve()`. */
  class ServerThread {
    const server: Server

    constructor (server: Server)
      ensures this.server == server
    {
      this.server := server;
    }
  }
}
