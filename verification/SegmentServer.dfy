/** The calls of the server's user on one session: write and disconnect. */
module SegmentServer {
  import opened Messages
  import opened MessageHandler
  import opened Sessions
  import opened Exchange
  import opened Client

  class Server {
    const sessionManager: SessionManager

    constructor (sessionManager: SessionManager)
      ensures this.sessionManager == sessionManager
    {
      this.sessionManager := sessionManager;
    }

    // Words are requests and anything else is raw data, as on the client; an unknown id is ignored.
    method Write(id: nat, text: seq<byte>, f: Faults)
      requires id in sessionManager.sessionMap ==>
        var session := sessionManager.sessionMap[id];
        session.Valid() && session.id == id && session.manager == sessionManager
      modifies sessionManager
      modifies if id in sessionManager.sessionMap
        then {sessionManager.sessionMap[id], sessionManager.sessionMap[id].socket} else {}
      ensures id !in old(sessionManager.sessionMap) ==> sessionManager.sessionMap == old(sessionManager.sessionMap)
      ensures id in old(sessionManager.sessionMap) ==>
        var session := old(sessionManager.sessionMap[id]);
        LinkOf(session) == WriteOnce(
          session.transport.magicNumber, old(LinkOf(sessionManager.sessionMap[id])), ClientMessage(text), f)
    {
      var session := sessionManager.GetSession(id);
      var word := BytesText(text);
      if word == "signal" || word == "information" {
        if session != null {
          session.Write(Plain(word, Request), f);
        }
      } else {
        var rawMessage := Raw("raw", Response, text);
        if session != null {
          session.Write(rawMessage, f);
        }
      }
    }

    // The session is not looked for: an id that is not in the map is a null session.
    method Disconnect(id: nat, f: Faults)
      requires id in sessionManager.sessionMap
      requires sessionManager.sessionMap[id].id == id && sessionManager.sessionMap[id].manager == sessionManager
      modifies sessionManager, sessionManager.sessionMap[id].socket
      ensures var session := old(sessionManager.sessionMap[id]);
        session.State() == AfterEvent(old(sessionManager.sessionMap[id].State()), Closing(Faulty(f)))
    {
      var session := sessionManager.GetSession(id);
      session.Disconnect(f);
    }
  }
}
